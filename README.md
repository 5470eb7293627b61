# Qt command-line option descriptor and widgets variant handler

This project models two small pieces of Qt in Dafny.

**`QCommandLineOption`** (`command_line_option.dfy`, module `CommandLine`) describes one
command-line option. It holds four fields:

- the option's names;
- the documentation name of its value;
- its description;
- its default values.

The class is `CommandLine.CommandLineOption`. Its fields are updated in place by the setters.
The only logic is in `setNames`. It walks the given list and appends each name that is
non-empty and starts with neither `-` nor `?`. Any other name is dropped with a warning. The
model records those warnings in a ghost log, in the order they are issued.

The model follows the code where the code and its doc comment disagree. The doc comment says
`setNames` *sets* the list to the given names and that names *cannot be repeated*. The code
appends to the names already stored and never removes duplicates. The model does the same:

- `SetNamesTwice` and `AcceptedNamesAppend` show that a second call appends;
- `AcceptedNamesCount` and `AcceptedNamesKeepsDuplicates` show that duplicates are kept.

**The widgets variant handler** (`widgets_variant.dfy`, module `WidgetsVariant`) lets the
core `QVariant` container manage two value types from the widgets library: `QIcon` and
`QSizePolicy`. Its four operations switch on a variant record's type tag:

- `construct` sets the record's `is_null` flag and its storage slot, and `clear` resets its
  `type`, `is_null` and `is_shared` fields (the class `VariantPrivate`);
- `isNull` and `compare` are pure functions.

`qRegisterWidgetsVariant` and `qUnregisterWidgetsVariant` set and reset two global pointers.
They are modelled as a `Globals` object.

Only one build configuration is modelled: a release build with icon support compiled in.
In that build a `Q_ASSERT(false)` does nothing, and the function takes its fall-through
path. The predicate `Handled` names the tags for which the assertion in `construct` and
`clear` holds.

`QIcon` and `QSizePolicy` belong to code outside this model. They appear as type parameters.
The model uses three things from them, passed in as parameters (`ForeignTypes`):

- their default-constructed values;
- `QIcon::isNull`;
- `QSizePolicy::operator==`.

## Model

| member | source | states |
|---|---|---|
| `CommandLine.CheckName` | src/corelib/tools/qcommandlineoption.cpp:168-176 | a name is accepted iff it is non-empty and starts with neither '-' nor '?'. Each refusal reason holds exactly when its test is the first to fail: empty, then leading '-', then leading '?' |
| `CommandLine.AcceptedNames` | src/corelib/tools/qcommandlineoption.cpp:166-178 | the names kept from an input are all valid and are never more than the input |
| `CommandLine.AcceptedNamesMembers` | src/corelib/tools/qcommandlineoption.cpp:168-176 | a name is kept iff it occurs in the input and is valid |
| `CommandLine.Rejections` | src/corelib/tools/qcommandlineoption.cpp:169-174 | the warnings for an input list give a refusal reason for each name, never "accepted" |
| `CommandLine.AcceptedOrRejected` | src/corelib/tools/qcommandlineoption.cpp:168-177 | each input name is either kept or draws exactly one warning. Kept names plus warnings equal the input length |
| `CommandLine.AcceptedNamesAppend` | src/corelib/tools/qcommandlineoption.cpp:176 | filtering distributes over concatenation, so names added in two steps equal names added in one |
| `CommandLine.RejectionsAppend` | src/corelib/tools/qcommandlineoption.cpp:168-174 | the warnings for `a + b` are the warnings for `a` followed by those for `b` |
| `CommandLine.AcceptedNamesOfValid` | src/corelib/tools/qcommandlineoption.cpp:175-176 | a list of valid names is kept unchanged and draws no warning |
| `CommandLine.AcceptedNamesOfInvalid` | src/corelib/tools/qcommandlineoption.cpp:169-174 | a list of invalid names keeps nothing and draws one warning per name |
| `CommandLine.AcceptedNamesIdempotent` | src/corelib/tools/qcommandlineoption.cpp:166-178 | filtering an already filtered list changes nothing |
| `CommandLine.AcceptedNamesCount` | src/corelib/tools/qcommandlineoption.cpp:168-176 | each valid name is kept as many times as it occurs in the input; an invalid one is never kept (no de-duplication) |
| `CommandLine.AcceptedNamesPrefix` | src/corelib/tools/qcommandlineoption.cpp:168-176 | the names kept follow input order: those kept from a prefix of the input are a prefix of those kept from the whole |
| `CommandLine.AcceptedNamesKeepsDuplicates` | src/corelib/tools/qcommandlineoption.cpp:160-176 | a valid name given twice is stored twice, although the doc comment says names cannot be repeated |
| `CommandLine.AcceptedNamesExample` | src/corelib/tools/qcommandlineoption.cpp:166-178 | `["", "-x", "?h", "o", "output"]` keeps `["o", "output"]` and warns "empty", "starts with '-'", "starts with '?'" in that order |
| `CommandLine.CommandLineOption.constructor` | src/corelib/tools/qcommandlineoption.cpp:84-93 | the default option has no names, an empty value name, an empty description and no default values |
| `CommandLine.CommandLineOption.WithValues` | src/corelib/tools/qcommandlineoption.cpp:101-110 | the four-argument constructor stores the filtered names and the other three arguments as given |
| `CommandLine.CommandLineOption.Copy` | src/corelib/tools/qcommandlineoption.cpp:118-121 | a copy equals the original field by field |
| `CommandLine.CommandLineOption.Assign` | src/corelib/tools/qcommandlineoption.cpp:134-138 | after assignment every field equals the other option's field |
| `CommandLine.CommandLineOption.Names` | src/corelib/tools/qcommandlineoption.cpp:152-155 | every name returned is non-empty and starts with neither '-' nor '?' |
| `CommandLine.CommandLineOption.SetNames` | src/corelib/tools/qcommandlineoption.cpp:166-178 | new names = old names followed by the valid input names in input order. The warnings grow by one per refused name. An input of invalid names only leaves the names unchanged. The invariant "every name valid" is kept, and no other field changes |
| `CommandLine.CommandLineOption.SetValueName` | src/corelib/tools/qcommandlineoption.cpp:196-211 | `ValueName()` returns exactly the value set. Only that field changes |
| `CommandLine.CommandLineOption.SetDescription` | src/corelib/tools/qcommandlineoption.cpp:221-234 | `Description()` returns exactly the value set. Only that field changes |
| `CommandLine.CommandLineOption.SetDefaultValues` | src/corelib/tools/qcommandlineoption.cpp:244-257 | `DefaultValues()` returns exactly the list set, empty lists and duplicates included. Only that field changes |
| `CommandLine.SetNamesTwice` | src/corelib/tools/qcommandlineoption.cpp:166-178 | `setNames(a); setNames(b)` stores the old names followed by the valid names of `a + b`. The other fields are unchanged |
| `CommandLine.ConstructThenSet` | src/corelib/tools/qcommandlineoption.cpp:101-110 | the four-argument constructor gives the same fields as the default constructor followed by the four setters |
| `CommandLine.DescribeCopy` | src/corelib/tools/qcommandlineoption.cpp:112-121 | changing the description of a copy leaves the original unchanged |
| `WidgetsVariant.DefaultPayload` | src/widgets/kernel/qwidgetsvariant.cpp:56-63 | default construction of a handled type yields a value of that type |
| `WidgetsVariant.Construct` | src/widgets/kernel/qwidgetsvariant.cpp:53-69 | for an Icon or SizePolicy tag, the slot gets the copy, or the default value when no copy is given, and `is_null` is true iff no copy was given. The tag never changes. For any other tag the record, `is_shared` included, is left untouched |
| `WidgetsVariant.Clear` | src/widgets/kernel/qwidgetsvariant.cpp:71-90 | for an Icon or SizePolicy tag the record ends with tag Invalid, `is_null` true, `is_shared` false and an empty slot. Any other tag leaves the record untouched |
| `WidgetsVariant.IsNull` | src/widgets/kernel/qwidgetsvariant.cpp:93-104 | it requires an icon payload only when the tag is Icon. On an icon it is the icon's own nullness. Only a non-null icon reports "not null", so every other tag, SizePolicy included, reports null |
| `WidgetsVariant.Compare` | src/widgets/kernel/qwidgetsvariant.cpp:106-120 | when the first tag is SizePolicy it requires the second tag to be SizePolicy and both slots to hold size policies, and the result is exactly size-policy equality. It can be true only when both tags are SizePolicy, so icons never compare equal and unequal tags compare unequal |
| `WidgetsVariant.CompareIconIrreflexive` | src/widgets/kernel/qwidgetsvariant.cpp:111-112 | an icon record does not compare equal to itself |
| `WidgetsVariant.CompareSizePolicyReflexive` | src/widgets/kernel/qwidgetsvariant.cpp:114-115 | a size-policy record compares equal to itself whenever size-policy equality is reflexive |
| `WidgetsVariant.CompareSymmetric` | src/widgets/kernel/qwidgetsvariant.cpp:106-120 | compare is symmetric whenever size-policy equality is, for equal tags and for unequal tags neither of which is SizePolicy |
| `WidgetsVariant.ConstructThenClear` | src/widgets/kernel/qwidgetsvariant.cpp:53-90 | construct then clear on a handled tag leaves the record with the same tag, flags and slot as a freshly made record that never held a value |
| `WidgetsVariant.ConstructDefault` | src/widgets/kernel/qwidgetsvariant.cpp:53-104 | after default construction the `is_null` flag is set. `isNull` then answers the default icon's nullness for Icon and true for SizePolicy |
| `WidgetsVariant.Globals.constructor` | src/widgets/kernel/qwidgetsvariant.cpp:141-152 | before registration both global pointers are null |
| `WidgetsVariant.RegisterWidgetsVariant` | src/widgets/kernel/qwidgetsvariant.cpp:154-158 | the handler pointer refers to the widgets handler and the meta-type pointer to the widgets meta-type table |
| `WidgetsVariant.UnregisterWidgetsVariant` | src/widgets/kernel/qwidgetsvariant.cpp:161-165 | both global pointers are null again |
| `WidgetsVariant.RegisterThenUnregister` | src/widgets/kernel/qwidgetsvariant.cpp:154-166 | registering then unregistering leaves the globals as static initialisation set them |

## Left out

- The `qWarning` messages in `setNames` go to one process-wide output. They are modelled only as the ghost log `warnings` of each option, one `NameCheck` value per message. Copying or assigning an option issues no warning, so `Copy` says nothing about the copy's log and `Assign` leaves the log unchanged.
- `QSharedDataPointer` reference counting and detach-on-write are not modelled. A descriptor is an object with plain fields, and copying copies them. The header that declares the shared pointer is not part of this model.
- `swap` is declared and documented only; its body is not in the modelled file.
- The destructor of `QCommandLineOption` is empty and has no model.
- `WidgetsVariant.Construct`: the storage policy of `v_construct` (inline or heap) lives in `qvariant_p.h`, which is not part of this model. That policy decides whether constructing an icon or a size policy sets `is_shared`, so the contract promises nothing about `is_shared` for those two tags. Constructing and destroying the payload objects themselves is reduced to setting the slot's value.
- `WidgetsVariant.VariantPrivate.constructor` stands for the default state of `QVariant::Private` (invalid, null, unshared, empty slot). That type is declared in `qvariant.h`, which is not part of this model.
- `WidgetsVariant.IsNull` and `WidgetsVariant.Compare` model the release build. There, a failed `Q_ASSERT` falls through to `return true` or `return false`. The debug build's abort is not modelled.
- `WidgetsVariant.IsNull` requires an icon in the slot when the tag is Icon, and `WidgetsVariant.Compare` requires size policies in both slots when the first tag is SizePolicy. Those are the only cases where the source reads a slot through `v_cast`, and the read is undefined when the slot holds something else.
- `WidgetsVariant.Compare` does not model one case: a first tag of SizePolicy with a second tag that is not. The `Q_ASSERT` on equal tags fails, and the release build then reads the second record's slot as a `QSizePolicy`, which is undefined. Every other pair of unequal tags is modelled: the release build returns false without reading a slot.
- The internals of `QIcon` and `QSizePolicy` are foreign code. They appear only as the parameters in `ForeignTypes`.
- The zero slots of `widgets_handler` (data-stream load/save, convert, canConvert, debug stream) are not modelled. The same goes for the `QMetaTypeInterface` array built by `QT_FOR_EACH_STATIC_WIDGETS_CLASS` and the load/unload hooks `Q_CONSTRUCTOR_FUNCTION` and `Q_DESTRUCTOR_FUNCTION`. All of this is macro and linker plumbing. A global pointer is modelled as a reference to a named table.
- Builds with `QT_NO_ICON` or `QT_NO_DATASTREAM` defined are not modelled.
- `src/plugins/platforminputcontexts/tizenscim/qtizenscimplatforminputcontext.h` only declares an input-method plugin interface, with no bodies. It is not part of this model.
