/**
  The option descriptor of a command-line parser: the names an option answers
  to, the placeholder name of its value, its help description and its default
  values. Names are filtered when they are added: an empty name, or one whose
  first character is '-' or '?', is refused with a warning and dropped.

  The descriptor's private data is shared copy-on-write; here a descriptor is
  an object with four plain fields, and copying copies the fields.
 */
module CommandLine {

  /** Outcome of vetting one name, in the order the checks are made:
      emptiness first, then a leading '-', then a leading '?'. Every outcome
      other than Accepted is reported as a warning. */
  datatype NameCheck = Accepted | EmptyName | LeadingDash | LeadingQuestionMark

  /** A name that may be stored in a descriptor. */
  predicate IsValidName(name: string)
  {
    |name| > 0 && name[0] != '-' && name[0] != '?'
  }

  /** The chain of tests made on one name, with the warning it leads to. */
  function CheckName(name: string): (c: NameCheck)
    ensures c == Accepted <==> IsValidName(name)
    ensures c == EmptyName <==> name == ""
    ensures c == LeadingDash <==> |name| > 0 && name[0] == '-'
    ensures c == LeadingQuestionMark <==> |name| > 0 && name[0] == '?'
  {
    if |name| == 0 then EmptyName
    else if name[0] == '-' then LeadingDash
    else if name[0] == '?' then LeadingQuestionMark
    else Accepted
  }

  /** The names of `ns` that pass CheckName, in input order, duplicates kept. */
  function AcceptedNames(ns: seq<string>): (r: seq<string>)
    ensures |r| <= |ns|
    ensures forall n :: n in r ==> IsValidName(n)
  {
    if ns == [] then []
    else if CheckName(ns[0]) == Accepted then [ns[0]] + AcceptedNames(ns[1..])
    else AcceptedNames(ns[1..])
  }

  /** A name is stored exactly when it is given and valid. */
  lemma {:induction false} AcceptedNamesMembers(ns: seq<string>, x: string)
    ensures x in AcceptedNames(ns) <==> x in ns && IsValidName(x)
  {
    if ns != [] {
      AcceptedNamesMembers(ns[1..], x);
      assert ns == [ns[0]] + ns[1..];
    }
  }

  /** Handling the name at index `i` extends what was kept and warned about
      for the names before it by that one name's outcome. */
  lemma AcceptedNamesStep(ns: seq<string>, i: nat)
    requires i < |ns|
    ensures AcceptedNames(ns[..i + 1]) ==
              AcceptedNames(ns[..i]) + (if CheckName(ns[i]) == Accepted then [ns[i]] else [])
    ensures Rejections(ns[..i + 1]) ==
              Rejections(ns[..i]) + (if CheckName(ns[i]) == Accepted then [] else [CheckName(ns[i])])
  {
    assert ns[..i + 1] == ns[..i] + [ns[i]];
    AcceptedNamesAppend(ns[..i], [ns[i]]);
    RejectionsAppend(ns[..i], [ns[i]]);
  }

  /** The warnings issued for `ns`, one per refused name, in input order. */
  function Rejections(ns: seq<string>): (r: seq<NameCheck>)
    ensures Accepted !in r
  {
    if ns == [] then []
    else if CheckName(ns[0]) == Accepted then Rejections(ns[1..])
    else [CheckName(ns[0])] + Rejections(ns[1..])
  }

  /** Every input name is either kept or refused with one warning. */
  lemma {:induction false} AcceptedOrRejected(ns: seq<string>)
    ensures |AcceptedNames(ns)| + |Rejections(ns)| == |ns|
  {
    if ns != [] {
      AcceptedOrRejected(ns[1..]);
    }
  }

  /** Filtering distributes over concatenation: adding `a` and then `b`
      stores what adding `a + b` at once would. */
  lemma {:induction false} AcceptedNamesAppend(a: seq<string>, b: seq<string>)
    ensures AcceptedNames(a + b) == AcceptedNames(a) + AcceptedNames(b)
  {
    if a == [] {
      assert a + b == b;
    } else {
      assert (a + b)[0] == a[0];
      assert (a + b)[1..] == a[1..] + b;
      AcceptedNamesAppend(a[1..], b);
    }
  }

  /** The warnings of `a + b` are those of `a` followed by those of `b`. */
  lemma {:induction false} RejectionsAppend(a: seq<string>, b: seq<string>)
    ensures Rejections(a + b) == Rejections(a) + Rejections(b)
  {
    if a == [] {
      assert a + b == b;
    } else {
      assert (a + b)[0] == a[0];
      assert (a + b)[1..] == a[1..] + b;
      RejectionsAppend(a[1..], b);
    }
  }

  /** No valid name is ever dropped: a list of valid names is stored as is. */
  lemma {:induction false} AcceptedNamesOfValid(ns: seq<string>)
    requires forall i :: 0 <= i < |ns| ==> IsValidName(ns[i])
    ensures AcceptedNames(ns) == ns
    ensures Rejections(ns) == []
  {
    if ns != [] {
      AcceptedNamesOfValid(ns[1..]);
    }
  }

  /** A list of invalid names stores nothing and warns once per name. */
  lemma {:induction false} AcceptedNamesOfInvalid(ns: seq<string>)
    requires forall i :: 0 <= i < |ns| ==> !IsValidName(ns[i])
    ensures AcceptedNames(ns) == []
    ensures |Rejections(ns)| == |ns|
  {
    if ns != [] {
      AcceptedNamesOfInvalid(ns[1..]);
    }
  }

  /** Filtering a second time changes nothing. */
  lemma AcceptedNamesIdempotent(ns: seq<string>)
    ensures AcceptedNames(AcceptedNames(ns)) == AcceptedNames(ns)
  {
    AcceptedNamesOfValid(AcceptedNames(ns));
  }

  /** Duplicates are not removed: each valid name is stored exactly as many
      times as it occurs in the input, each invalid one never. */
  lemma {:induction false} AcceptedNamesCount(ns: seq<string>, x: string)
    ensures multiset(AcceptedNames(ns))[x] == if IsValidName(x) then multiset(ns)[x] else 0
  {
    if ns != [] {
      AcceptedNamesCount(ns[1..], x);
      assert ns == [ns[0]] + ns[1..];
      assert multiset(ns) == multiset([ns[0]]) + multiset(ns[1..]);
      if CheckName(ns[0]) == Accepted {
        assert multiset(AcceptedNames(ns)) == multiset([ns[0]]) + multiset(AcceptedNames(ns[1..]));
      }
    }
  }

  /** Stored order is input order: the names accepted from a prefix of the
      input are a prefix of the names accepted from all of it. */
  lemma AcceptedNamesPrefix(ns: seq<string>, k: nat)
    requires k <= |ns|
    ensures AcceptedNames(ns[..k]) <= AcceptedNames(ns)
  {
    assert ns == ns[..k] + ns[k..];
    AcceptedNamesAppend(ns[..k], ns[k..]);
  }

  /** A valid name given twice is stored twice, although the documentation
      says names cannot be repeated. */
  lemma AcceptedNamesKeepsDuplicates(name: string)
    requires IsValidName(name)
    ensures AcceptedNames([name, name]) == [name, name]
  {
    AcceptedNamesOfValid([name, name]);
  }

  /** The filtering of an input mixing the three refusals with two names. */
  lemma AcceptedNamesExample()
    ensures AcceptedNames(["", "-x", "?h", "o", "output"]) == ["o", "output"]
    ensures Rejections(["", "-x", "?h", "o", "output"]) == [EmptyName, LeadingDash, LeadingQuestionMark]
  {
    var ns := ["", "-x", "?h", "o", "output"];
    assert CheckName(ns[0]) == EmptyName;
    assert CheckName(ns[1]) == LeadingDash;
    assert CheckName(ns[2]) == LeadingQuestionMark;
    assert CheckName(ns[3]) == Accepted;
    assert CheckName(ns[4]) == Accepted;
    assert ns[1..][1..][1..][1..][1..] == [];
  }

  class CommandLineOption {
    /** The names used for this option, in the order they were added. */
    var nameSet: seq<string>
    /** The documentation name of the expected value; empty for a flag. */
    var valueName: string
    /** The help text of the option. */
    var description: string
    /** The values used when the option is not given on the command line. */
    var defaultValues: seq<string>
    /** The warnings issued so far for refused names, in order. */
    ghost var warnings: seq<NameCheck>

    /** Every stored name is non-empty and starts with neither '-' nor '?'. */
    ghost predicate Valid()
      reads this
    {
      forall n :: n in nameSet ==> IsValidName(n)
    }

    /** An option with no names, no value, no description and no defaults. */
    constructor ()
      ensures Valid()
      ensures nameSet == [] && valueName == "" && description == "" && defaultValues == []
      ensures warnings == []
    {
      nameSet, valueName, description, defaultValues := [], "", "", [];
      warnings := [];
    }

    /** An option built by the four setters on an empty option, names first. */
    constructor WithValues(names: seq<string>, description: string, valueName: string,
                           defaultValues: seq<string>)
      ensures Valid()
      ensures nameSet == AcceptedNames(names)
      ensures this.valueName == valueName && this.description == description
      ensures this.defaultValues == defaultValues
      ensures warnings == Rejections(names)
    {
      this.nameSet, this.valueName, this.description, this.defaultValues := [], "", "", [];
      this.warnings := [];
      new;
      SetNames(names);
      SetValueName(valueName);
      SetDescription(description);
      SetDefaultValues(defaultValues);
    }

    /** A copy of `other`, equal to it field by field. Copying issues no
        warning, so nothing is said about the copy's warning log. */
    constructor Copy(other: CommandLineOption)
      requires other.Valid()
      ensures Valid()
      ensures nameSet == other.nameSet && valueName == other.valueName
      ensures description == other.description && defaultValues == other.defaultValues
    {
      nameSet, valueName, description := other.nameSet, other.valueName, other.description;
      defaultValues := other.defaultValues;
    }

    /** Assignment: this option takes the four fields of `other`. Assigning
        issues and withdraws no warning, so the warning log is untouched. */
    method Assign(other: CommandLineOption)
      requires other.Valid()
      modifies this`nameSet, this`valueName, this`description, this`defaultValues
      ensures Valid()
      ensures nameSet == old(other.nameSet) && valueName == old(other.valueName)
      ensures description == old(other.description) && defaultValues == old(other.defaultValues)
      ensures warnings == old(warnings)
    {
      nameSet, valueName, description := other.nameSet, other.valueName, other.description;
      defaultValues := other.defaultValues;
    }

    /** The names stored so far. */
    function Names(): (r: seq<string>)
      reads this
      requires Valid()
      ensures forall n :: n in r ==> IsValidName(n)
    {
      nameSet
    }

    function ValueName(): string
      reads this
    {
      valueName
    }

    function Description(): string
      reads this
    {
      description
    }

    function DefaultValues(): seq<string>
      reads this
    {
      defaultValues
    }

    /** Adds the valid names of `names` after those already stored, and warns
        once for each refused one. Nothing stored is removed or reordered. */
    method SetNames(names: seq<string>)
      requires Valid()
      modifies this`nameSet, this`warnings
      ensures Valid()
      ensures nameSet == old(nameSet) + AcceptedNames(names)
      ensures warnings == old(warnings) + Rejections(names)
      ensures (forall i :: 0 <= i < |names| ==> !IsValidName(names[i])) ==> nameSet == old(nameSet)
    {
      var i := 0;
      while i < |names|
        invariant 0 <= i <= |names|
        invariant nameSet == old(nameSet) + AcceptedNames(names[..i])
        invariant warnings == old(warnings) + Rejections(names[..i])
      {
        var name := names[i];
        var check := CheckName(name);
        AcceptedNamesStep(names, i);
        if check == Accepted {
          nameSet := nameSet + [name];
        } else {
          warnings := warnings + [check];
        }
        i := i + 1;
      }
      assert names[..i] == names;
      if forall k :: 0 <= k < |names| ==> !IsValidName(names[k]) {
        AcceptedNamesOfInvalid(names);
      }
    }

    method SetValueName(valueName: string)
      requires Valid()
      modifies this`valueName
      ensures Valid()
      ensures ValueName() == valueName
    {
      this.valueName := valueName;
    }

    method SetDescription(description: string)
      requires Valid()
      modifies this`description
      ensures Valid()
      ensures Description() == description
    {
      this.description := description;
    }

    method SetDefaultValues(defaultValues: seq<string>)
      requires Valid()
      modifies this`defaultValues
      ensures Valid()
      ensures DefaultValues() == defaultValues
    {
      this.defaultValues := defaultValues;
    }
  }

  /** Two calls to SetNames store what one call on the concatenated lists
      would: the second call appends rather than replaces. */
  method SetNamesTwice(o: CommandLineOption, a: seq<string>, b: seq<string>)
    requires o.Valid()
    modifies o
    ensures o.Valid()
    ensures o.nameSet == old(o.nameSet) + AcceptedNames(a + b)
    ensures o.valueName == old(o.valueName) && o.description == old(o.description)
    ensures o.defaultValues == old(o.defaultValues)
  {
    o.SetNames(a);
    o.SetNames(b);
    AcceptedNamesAppend(a, b);
    assert o.nameSet == old(o.nameSet) + (AcceptedNames(a) + AcceptedNames(b));
  }

  /** The four-argument constructor gives the state of an empty option on
      which the four setters are then called. */
  method ConstructThenSet(names: seq<string>, description: string, valueName: string,
                          defaultValues: seq<string>)
    returns (built: CommandLineOption, viaSetters: CommandLineOption)
    ensures built.nameSet == viaSetters.nameSet && built.valueName == viaSetters.valueName
    ensures built.description == viaSetters.description && built.defaultValues == viaSetters.defaultValues
  {
    built := new CommandLineOption.WithValues(names, description, valueName, defaultValues);
    viaSetters := new CommandLineOption();
    viaSetters.SetNames(names);
    viaSetters.SetValueName(valueName);
    viaSetters.SetDescription(description);
    viaSetters.SetDefaultValues(defaultValues);
  }

  /** Changing the description of a copy leaves the original as it was. With
      fields copied by value this follows from `Copy` allocating a distinct
      object; it says nothing about how shared data detaches on write. */
  method DescribeCopy(original: CommandLineOption, description: string)
    returns (copy: CommandLineOption)
    requires original.Valid()
    ensures fresh(copy) && copy.Valid()
    ensures unchanged(original)
    ensures copy.Description() == description
    ensures copy.nameSet == original.nameSet && copy.valueName == original.valueName
    ensures copy.defaultValues == original.defaultValues
  {
    copy := new CommandLineOption.Copy(original);
    copy.SetDescription(description);
  }
}
