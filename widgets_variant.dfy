/**
  The handler through which the generic variant container of the core library
  manages the two value types that belong to the widgets library: icons and
  size policies. The handler is a table of four operations (construct, clear,
  isNull, compare) that switch on the record's type tag. A pair of global
  pointers installs the table when the library is loaded and removes it when
  the library is unloaded.

  Only the release build is modelled. In it, a tag the switch does not handle
  trips a debug assertion and then takes the fall-through path; `Handled`
  names the tags for which that assertion holds. Icon support is compiled in.

  The icon and size-policy values belong to code outside this model. They are
  type parameters `I` and `S`. What this handler uses of them is passed in a
  `ForeignTypes` value: the default-constructed values, the icon's own nullness
  test and the size policy's equality operator.
 */
module WidgetsVariant {

  datatype Option<T> = None | Some(value: T)

  /** The type tag of a variant record. Other(id) is any tag this handler
      does not serve. */
  datatype VariantType = Invalid | Icon | SizePolicy | Other(id: int)

  /** The value held in the record's storage slot. */
  datatype Payload<I, S> = NoPayload | IconPayload(icon: I) | SizePolicyPayload(policy: S)

  /** What this handler relies on from the two foreign value types. */
  datatype ForeignTypes<!I, !S> = ForeignTypes(
    defaultIcon: I,
    defaultSizePolicy: S,
    iconIsNull: I -> bool,
    sizePolicyEq: (S, S) -> bool)

  /** The tags the handler's switches serve; any other tag trips the debug
      assertion in construct and clear. */
  predicate Handled(t: VariantType)
  {
    t == Icon || t == SizePolicy
  }

  /** `p` is a value of the type that tag `t` announces. Tags the handler does
      not serve announce nothing it can check. */
  predicate Fits<I, S>(p: Payload<I, S>, t: VariantType)
  {
    match t
    case Icon => p.IconPayload?
    case SizePolicy => p.SizePolicyPayload?
    case _ => true
  }

  /** The value a default construction of type `t` puts into the slot. */
  function DefaultPayload<I, S>(t: VariantType, f: ForeignTypes<I, S>): (p: Payload<I, S>)
    requires Handled(t)
    ensures Fits(p, t)
  {
    if t == Icon then IconPayload(f.defaultIcon) else SizePolicyPayload(f.defaultSizePolicy)
  }

  /** The private record of a variant: its tag, its flags and its slot. */
  class VariantPrivate<I, S> {
    var vtype: VariantType
    var isNull: bool
    var isShared: bool
    var data: Payload<I, S>

    /** A record holding nothing: invalid, null and not shared. */
    constructor ()
      ensures vtype == Invalid && isNull && !isShared && data == NoPayload
    {
      vtype, isNull, isShared, data := Invalid, true, false, NoPayload;
    }

    /** The slot holds a value of the type the tag announces. */
    ghost predicate Constructed()
      reads this
    {
      Fits(data, vtype)
    }
  }

  /** Constructs the value of the record's type in its slot: a copy of `copy`
      when one is given, a default-constructed value otherwise. The record is
      null exactly when no copy was given. An unhandled tag leaves the record
      as it was. Whether a handled construction marks the record shared is
      decided by a storage policy outside this model, so nothing is promised
      about the shared flag in that case. */
  method Construct<I, S>(x: VariantPrivate<I, S>, copy: Option<Payload<I, S>>, f: ForeignTypes<I, S>)
    requires copy.Some? ==> Fits(copy.value, x.vtype)
    modifies x
    ensures x.vtype == old(x.vtype)
    ensures Handled(x.vtype) ==> x.isNull == copy.None? && x.Constructed()
    ensures Handled(x.vtype) ==>
              x.data == (if copy.Some? then copy.value else DefaultPayload(x.vtype, f))
    ensures !Handled(x.vtype) ==>
              x.isNull == old(x.isNull) && x.isShared == old(x.isShared) && x.data == old(x.data)
  {
    match x.vtype {
      case Icon =>
        x.data := if copy.Some? then copy.value else IconPayload(f.defaultIcon);
      case SizePolicy =>
        x.data := if copy.Some? then copy.value else SizePolicyPayload(f.defaultSizePolicy);
      case _ =>
        return;
    }
    x.isNull := copy.None?;
  }

  /** Destroys the value in the record's slot and resets the record to the
      invalid, null, unshared state. An unhandled tag leaves it as it was. */
  method Clear<I, S>(d: VariantPrivate<I, S>)
    modifies d
    ensures Handled(old(d.vtype)) ==>
              d.vtype == Invalid && d.isNull && !d.isShared && d.data == NoPayload
    ensures !Handled(old(d.vtype)) ==>
              d.vtype == old(d.vtype) && d.isNull == old(d.isNull) &&
              d.isShared == old(d.isShared) && d.data == old(d.data)
  {
    match d.vtype {
      case Icon =>
        d.data := NoPayload;
      case SizePolicy =>
        d.data := NoPayload;
      case _ =>
        return;
    }
    d.vtype := Invalid;
    d.isNull := true;
    d.isShared := false;
  }

  /** Whether the held value is null. Only an icon is asked; every other tag,
      size policy included, trips the debug assertion and answers true without
      looking at the slot. */
  function IsNull<I, S>(d: VariantPrivate<I, S>, f: ForeignTypes<I, S>): (r: bool)
    reads d
    requires d.vtype == Icon ==> d.data.IconPayload?
    ensures d.vtype == Icon ==> (r <==> f.iconIsNull(d.data.icon))
    ensures !r ==> d.vtype == Icon && !f.iconIsNull(d.data.icon)
  {
    match d.vtype
    case Icon => f.iconIsNull(d.data.icon)
    case _ => true
  }

  /** Whether two records hold equal values. The switch is on the first
      record's tag. Icons never compare equal, not even to themselves; size
      policies compare with their own equality; any other tag trips the debug
      assertion and answers false. Only the size-policy case reads the slots,
      and it reads both as size policies, so only that case needs the second
      record to be a size policy too. With any other first tag, unequal tags
      trip the debug assertion on equal tags and answer false. */
  function Compare<I, S>(a: VariantPrivate<I, S>, b: VariantPrivate<I, S>, f: ForeignTypes<I, S>): (r: bool)
    reads a, b
    requires a.vtype == SizePolicy ==>
               b.vtype == SizePolicy && a.data.SizePolicyPayload? && b.data.SizePolicyPayload?
    ensures a.vtype == SizePolicy ==> (r <==> f.sizePolicyEq(a.data.policy, b.data.policy))
    ensures r ==> a.vtype == SizePolicy && a.vtype == b.vtype
  {
    match a.vtype
    case Icon => false
    case SizePolicy => f.sizePolicyEq(a.data.policy, b.data.policy)
    case _ => false
  }

  ghost predicate Reflexive<S(!new)>(eq: (S, S) -> bool)
  {
    forall p :: eq(p, p)
  }

  ghost predicate Symmetric<S(!new)>(eq: (S, S) -> bool)
  {
    forall p, q :: eq(p, q) <==> eq(q, p)
  }

  /** An icon record is not equal to itself. */
  lemma CompareIconIrreflexive<I, S>(a: VariantPrivate<I, S>, f: ForeignTypes<I, S>)
    requires a.vtype == Icon
    ensures !Compare(a, a, f)
  {
  }

  /** Every size-policy record equals itself when size-policy equality is
      reflexive. */
  lemma CompareSizePolicyReflexive<I, S(!new)>(a: VariantPrivate<I, S>, f: ForeignTypes<I, S>)
    requires a.vtype == SizePolicy && a.data.SizePolicyPayload?
    requires Reflexive(f.sizePolicyEq)
    ensures Compare(a, a, f)
  {
  }

  /** Compare is symmetric when size-policy equality is, for every pair of
      records it can be asked about in both orders: equal tags, or unequal
      tags neither of which is SizePolicy. */
  lemma CompareSymmetric<I, S(!new)>(a: VariantPrivate<I, S>, b: VariantPrivate<I, S>, f: ForeignTypes<I, S>)
    requires a.vtype == SizePolicy <==> b.vtype == SizePolicy
    requires a.vtype == SizePolicy ==> a.data.SizePolicyPayload? && b.data.SizePolicyPayload?
    requires Symmetric(f.sizePolicyEq)
    ensures Compare(a, b, f) == Compare(b, a, f)
  {
  }

  /** Constructing and then clearing a record of a handled type leaves it in
      the state of a record that never held a value, `neverUsed`. */
  method ConstructThenClear<I, S>(x: VariantPrivate<I, S>, copy: Option<Payload<I, S>>, f: ForeignTypes<I, S>)
    returns (neverUsed: VariantPrivate<I, S>)
    requires Handled(x.vtype)
    requires copy.Some? ==> Fits(copy.value, x.vtype)
    modifies x
    ensures fresh(neverUsed)
    ensures x.vtype == neverUsed.vtype && x.isNull == neverUsed.isNull
    ensures x.isShared == neverUsed.isShared && x.data == neverUsed.data
  {
    Construct(x, copy, f);
    Clear(x);
    neverUsed := new VariantPrivate();
  }

  /** A default-constructed record of either type answers null through the
      record's flag; through IsNull an icon answers its own nullness and a
      size policy answers true. */
  method ConstructDefault<I, S>(x: VariantPrivate<I, S>, f: ForeignTypes<I, S>) returns (reportsNull: bool)
    requires Handled(x.vtype)
    modifies x
    ensures x.isNull && x.Constructed()
    ensures reportsNull == IsNull(x, f)
    ensures reportsNull == (x.vtype == SizePolicy || f.iconIsNull(f.defaultIcon))
  {
    Construct(x, None, f);
    reportsNull := IsNull(x, f);
  }

  /** The operation tables the two global pointers can refer to. */
  datatype HandlerRef = NoHandler | WidgetsHandler
  datatype MetaTypeTableRef = NoMetaTypeTable | WidgetsMetaTypeTable

  /** The two process-wide pointers the widgets library sets: the variant
      handler for its value types and the table of their meta-type
      interfaces. */
  class Globals {
    var variantHandler: HandlerRef
    var metaTypeHelper: MetaTypeTableRef

    /** Static initialisation: both pointers are null. */
    constructor ()
      ensures variantHandler == NoHandler && metaTypeHelper == NoMetaTypeTable
    {
      variantHandler, metaTypeHelper := NoHandler, NoMetaTypeTable;
    }

    /** Both pointers refer to the widgets tables. */
    predicate IsRegistered()
      reads this
    {
      variantHandler == WidgetsHandler && metaTypeHelper == WidgetsMetaTypeTable
    }
  }

  /** Installs the widgets handler and the widgets meta-type table. */
  method RegisterWidgetsVariant(g: Globals)
    modifies g
    ensures g.variantHandler == WidgetsHandler && g.metaTypeHelper == WidgetsMetaTypeTable
    ensures g.IsRegistered()
  {
    g.variantHandler := WidgetsHandler;
    g.metaTypeHelper := WidgetsMetaTypeTable;
  }

  /** Resets both global pointers to null. */
  method UnregisterWidgetsVariant(g: Globals)
    modifies g
    ensures g.variantHandler == NoHandler && g.metaTypeHelper == NoMetaTypeTable
    ensures !g.IsRegistered()
  {
    g.variantHandler := NoHandler;
    g.metaTypeHelper := NoMetaTypeTable;
  }

  /** Loading and then unloading the library leaves the globals as static
      initialisation set them. */
  method RegisterThenUnregister() returns (g: Globals)
    ensures fresh(g)
    ensures g.variantHandler == NoHandler && g.metaTypeHelper == NoMetaTypeTable
  {
    g := new Globals();
    RegisterWidgetsVariant(g);
    UnregisterWidgetsVariant(g);
  }
}
