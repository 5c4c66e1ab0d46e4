/** The relationship-type vocabulary of PackageRelationship: an ordered table of
    (forward, reverse) names with an aligned table of printable templates, the
    first-match lookups that search it, and the name lists derived from it. */
module RelTypes {
  import opened Wrappers

  /** (forward, reverse): A `child_of` B means B `parent_of` A. */
  type TypePair = (string, string)
  type TypeTable = seq<TypePair>

  /** The built-in table, used when no plugin supplies one. */
  const DefaultTypes: TypeTable := [("child_of", "parent_of"), ("sibling_of", "sibling_of")]

  /** The built-in printable templates, row for row with DefaultTypes. */
  const DefaultPrintable: TypeTable :=
    [("is a child of {}", "is a parent of {}"), ("is a sibling of {}", "is a sibling of {}")]

  /** Names of different pairs never coincide; within one pair forward and
      reverse are equal exactly for a symmetric (non-directional) type. */
  ghost predicate Distinct(t: TypeTable)
  {
    forall i, j :: 0 <= i < |t| && 0 <= j < |t| && i != j ==>
      t[i].0 != t[j].0 && t[i].0 != t[j].1 && t[i].1 != t[j].1
  }

  /** s is named by some pair of the table, in either direction. */
  ghost predicate Known(t: TypeTable, s: string)
  {
    exists i :: 0 <= i < |t| && (t[i].0 == s || t[i].1 == s)
  }

  /** Some pair of the table is (s, s). */
  ghost predicate Symmetric(t: TypeTable, s: string)
  {
    exists i :: 0 <= i < |t| && t[i].0 == s && t[i].1 == s
  }

  /** i is the first pair whose forward name is s. */
  ghost predicate FirstForward(t: TypeTable, s: string, i: int)
  {
    0 <= i < |t| && t[i].0 == s && forall j :: 0 <= j < i ==> t[j].0 != s
  }

  /** i is the first pair whose reverse name is s. */
  ghost predicate FirstReverse(t: TypeTable, s: string, i: int)
  {
    0 <= i < |t| && t[i].1 == s && forall j :: 0 <= j < i ==> t[j].1 != s
  }

  /** i is the first pair that names s in either direction. */
  ghost predicate FirstMention(t: TypeTable, s: string, i: int)
  {
    0 <= i < |t| && (t[i].0 == s || t[i].1 == s) &&
    forall j :: 0 <= j < i ==> t[j].0 != s && t[j].1 != s
  }

  // ---------------------------------------------------------------------------
  // Derived lists (get_forward_types, get_reverse_types, get_all_types).
  // Each is built pair by pair, appending at the end, as the source does.

  function ForwardTypes(t: TypeTable): (r: seq<string>)
    ensures |r| == |t|
    ensures forall i :: 0 <= i < |t| ==> r[i] == t[i].0
  {
    if t == [] then [] else ForwardTypes(t[..|t| - 1]) + [t[|t| - 1].0]
  }

  function ReverseTypes(t: TypeTable): (r: seq<string>)
    ensures |r| == |t|
    ensures forall i :: 0 <= i < |t| ==> r[i] == t[i].1
  {
    if t == [] then [] else ReverseTypes(t[..|t| - 1]) + [t[|t| - 1].1]
  }

  /** Forward and reverse name of every pair, interleaved in table order. */
  function AllTypes(t: TypeTable): (r: seq<string>)
    ensures |r| == 2 * |t|
    ensures forall i :: 0 <= i < |t| ==> r[2 * i] == t[i].0 && r[2 * i + 1] == t[i].1
  {
    if t == [] then [] else AllTypes(t[..|t| - 1]) + [t[|t| - 1].0, t[|t| - 1].1]
  }

  /** The set of known types is exactly the names the table mentions. */
  lemma KnownIffInAllTypes(t: TypeTable, s: string)
    ensures s in AllTypes(t) <==> Known(t, s)
  {
    var r := AllTypes(t);
    if s in r {
      var k :| 0 <= k < |r| && r[k] == s;
      var i := k / 2;
      assert k == 2 * i || k == 2 * i + 1;
      assert t[i].0 == s || t[i].1 == s;
    }
    if Known(t, s) {
      var i :| 0 <= i < |t| && (t[i].0 == s || t[i].1 == s);
      if t[i].0 == s { assert r[2 * i] == s; } else { assert r[2 * i + 1] == s; }
    }
  }

  /** All known types are the union of the forward and the reverse names. */
  lemma AllTypesIsUnion(t: TypeTable, s: string)
    ensures s in AllTypes(t) <==> s in ForwardTypes(t) || s in ReverseTypes(t)
  {
    KnownIffInAllTypes(t, s);
    var f, v := ForwardTypes(t), ReverseTypes(t);
    if s in f {
      var i :| 0 <= i < |f| && f[i] == s;
      assert t[i].0 == s;
    }
    if s in v {
      var i :| 0 <= i < |v| && v[i] == s;
      assert t[i].1 == s;
    }
    if Known(t, s) {
      var i :| 0 <= i < |t| && (t[i].0 == s || t[i].1 == s);
      if t[i].0 == s { assert f[i] == s; } else { assert v[i] == s; }
    }
  }

  // ---------------------------------------------------------------------------
  // First-match lookups. Each returns from the first pair that matches and
  // falls off the end of the table (None) when none does.

  /** forward_to_reverse_type: an answer is the reverse of a pair whose
      forward name is s. */
  function ForwardToReverse(t: TypeTable, s: string): (r: Option<string>)
    ensures r.Some? ==> exists i :: 0 <= i < |t| && t[i] == (s, r.value)
  {
    if t == [] then None
    else if t[0].0 == s then Some(t[0].1)
    else ForwardToReverse(t[1..], s)
  }

  /** reverse_to_forward_type: an answer is the forward name of a pair whose
      reverse name is s. */
  function ReverseToForward(t: TypeTable, s: string): (r: Option<string>)
    ensures r.Some? ==> exists i :: 0 <= i < |t| && t[i] == (r.value, s)
  {
    if t == [] then None
    else if t[0].1 == s then Some(t[0].0)
    else ReverseToForward(t[1..], s)
  }

  /** reverse_type: within each pair the forward name is tested first; an
      answer is the other side of a pair that names s. */
  function ReverseOf(t: TypeTable, s: string): (r: Option<string>)
    ensures r.Some? ==> exists i :: 0 <= i < |t| && (t[i] == (s, r.value) || t[i] == (r.value, s))
  {
    if t == [] then None
    else if t[0].0 == s then Some(t[0].1)
    else if t[0].1 == s then Some(t[0].0)
    else ReverseOf(t[1..], s)
  }

  /** is_undirect: an answer is s itself, from a pair (s, s). */
  function UndirectOf(t: TypeTable, s: string): (r: Option<string>)
    ensures r.Some? ==> r.value == s && Symmetric(t, s)
  {
    if t == [] then None
    else if t[0].1 == s && t[0].0 == s then Some(t[0].0)
    else UndirectOf(t[1..], s)
  }

  lemma {:induction false} ForwardToReverseFirst(t: TypeTable, s: string)
    ensures ForwardToReverse(t, s) == None <==> forall i :: 0 <= i < |t| ==> t[i].0 != s
    ensures forall i :: FirstForward(t, s, i) ==> ForwardToReverse(t, s) == Some(t[i].1)
  {
    if t != [] && t[0].0 != s {
      ForwardToReverseFirst(t[1..], s);
      forall i | FirstForward(t, s, i)
        ensures ForwardToReverse(t, s) == Some(t[i].1)
      {
        assert FirstForward(t[1..], s, i - 1);
      }
      if forall i :: 0 <= i < |t[1..]| ==> t[1..][i].0 != s {
        forall i | 0 <= i < |t| ensures t[i].0 != s {
          if i > 0 { assert t[i] == t[1..][i - 1]; }
        }
      }
    }
  }

  lemma {:induction false} ReverseToForwardFirst(t: TypeTable, s: string)
    ensures ReverseToForward(t, s) == None <==> forall i :: 0 <= i < |t| ==> t[i].1 != s
    ensures forall i :: FirstReverse(t, s, i) ==> ReverseToForward(t, s) == Some(t[i].0)
  {
    if t != [] && t[0].1 != s {
      ReverseToForwardFirst(t[1..], s);
      forall i | FirstReverse(t, s, i)
        ensures ReverseToForward(t, s) == Some(t[i].0)
      {
        assert FirstReverse(t[1..], s, i - 1);
      }
      if forall i :: 0 <= i < |t[1..]| ==> t[1..][i].1 != s {
        forall i | 0 <= i < |t| ensures t[i].1 != s {
          if i > 0 { assert t[i] == t[1..][i - 1]; }
        }
      }
    }
  }

  lemma {:induction false} ReverseOfFirst(t: TypeTable, s: string)
    ensures ReverseOf(t, s) == None <==> !Known(t, s)
    ensures forall i :: FirstMention(t, s, i) ==>
      ReverseOf(t, s) == Some(if t[i].0 == s then t[i].1 else t[i].0)
  {
    if t == [] {
    } else if t[0].0 == s || t[0].1 == s {
      assert Known(t, s) by { assert t[0].0 == s || t[0].1 == s; }
    } else {
      ReverseOfFirst(t[1..], s);
      forall i | FirstMention(t, s, i)
        ensures ReverseOf(t, s) == Some(if t[i].0 == s then t[i].1 else t[i].0)
      {
        assert FirstMention(t[1..], s, i - 1);
      }
      if Known(t, s) {
        var i :| 0 <= i < |t| && (t[i].0 == s || t[i].1 == s);
        assert t[1..][i - 1] == t[i];
      }
      if Known(t[1..], s) {
        var i :| 0 <= i < |t[1..]| && (t[1..][i].0 == s || t[1..][i].1 == s);
        assert t[i + 1] == t[1..][i];
      }
    }
  }

  lemma {:induction false} UndirectOfSpec(t: TypeTable, s: string)
    ensures UndirectOf(t, s) == None || UndirectOf(t, s) == Some(s)
    ensures UndirectOf(t, s).Some? <==> Symmetric(t, s)
  {
    if t == [] {
    } else if t[0].1 == s && t[0].0 == s {
      assert Symmetric(t, s) by { assert t[0].0 == s && t[0].1 == s; }
    } else {
      UndirectOfSpec(t[1..], s);
      if Symmetric(t, s) {
        var i :| 0 <= i < |t| && t[i].0 == s && t[i].1 == s;
        assert t[1..][i - 1] == t[i];
      }
      if Symmetric(t[1..], s) {
        var i :| 0 <= i < |t[1..]| && t[1..][i].0 == s && t[1..][i].1 == s;
        assert t[i + 1] == t[1..][i];
      }
    }
  }

  // ---------------------------------------------------------------------------
  // Lookup facts under the distinctness rule of the table.

  lemma ForwardReverseAt(t: TypeTable, i: int)
    requires Distinct(t) && 0 <= i < |t|
    ensures ForwardToReverse(t, t[i].0) == Some(t[i].1)
    ensures ReverseToForward(t, t[i].1) == Some(t[i].0)
  {
    ForwardToReverseFirst(t, t[i].0);
    assert FirstForward(t, t[i].0, i);
    ReverseToForwardFirst(t, t[i].1);
    assert FirstReverse(t, t[i].1, i);
  }

  /** forward_to_reverse_type and reverse_to_forward_type undo each other. */
  lemma ForwardReverseInverse(t: TypeTable, s: string)
    requires Distinct(t)
    ensures ForwardToReverse(t, s).Some? ==> ReverseToForward(t, ForwardToReverse(t, s).value) == Some(s)
    ensures ReverseToForward(t, s).Some? ==> ForwardToReverse(t, ReverseToForward(t, s).value) == Some(s)
  {
    ForwardToReverseFirst(t, s);
    ReverseToForwardFirst(t, s);
    if ForwardToReverse(t, s).Some? {
      var i :| 0 <= i < |t| && t[i].0 == s;
      assert FirstForward(t, s, i);
      ForwardReverseAt(t, i);
    }
    if ReverseToForward(t, s).Some? {
      var i :| 0 <= i < |t| && t[i].1 == s;
      assert FirstReverse(t, s, i);
      ForwardReverseAt(t, i);
    }
  }

  lemma ReverseOfAt(t: TypeTable, i: int)
    requires Distinct(t) && 0 <= i < |t|
    ensures ReverseOf(t, t[i].0) == Some(t[i].1)
    ensures ReverseOf(t, t[i].1) == Some(t[i].0)
  {
    ReverseOfFirst(t, t[i].0);
    assert FirstMention(t, t[i].0, i);
    ReverseOfFirst(t, t[i].1);
    assert FirstMention(t, t[i].1, i);
  }

  /** A symmetric pair is its own reverse. */
  lemma ReverseOfSymmetric(t: TypeTable, i: int)
    requires Distinct(t) && 0 <= i < |t| && t[i].0 == t[i].1
    ensures ReverseOf(t, t[i].0) == Some(t[i].0)
  {
    ReverseOfAt(t, i);
  }

  /** reverse_type is an involution on the known types. */
  lemma ReverseOfInvolution(t: TypeTable, s: string)
    requires Distinct(t) && s in AllTypes(t)
    ensures ReverseOf(t, s).Some?
    ensures ReverseOf(t, ReverseOf(t, s).value) == Some(s)
  {
    KnownIffInAllTypes(t, s);
    var i :| 0 <= i < |t| && (t[i].0 == s || t[i].1 == s);
    ReverseOfAt(t, i);
  }

  /** reverse_type has an answer exactly for the known types. */
  lemma ReverseOfDefined(t: TypeTable, s: string)
    ensures ReverseOf(t, s).Some? <==> s in AllTypes(t)
  {
    ReverseOfFirst(t, s);
    KnownIffInAllTypes(t, s);
  }

  /** On a forward name reverse_type is forward_to_reverse_type, on a reverse
      name it is reverse_to_forward_type. */
  lemma ReverseOfAgrees(t: TypeTable, s: string)
    requires Distinct(t)
    ensures s in ForwardTypes(t) ==> ReverseOf(t, s) == ForwardToReverse(t, s)
    ensures s in ReverseTypes(t) ==> ReverseOf(t, s) == ReverseToForward(t, s)
  {
    var f, v := ForwardTypes(t), ReverseTypes(t);
    if s in f {
      var i :| 0 <= i < |f| && f[i] == s;
      ReverseOfAt(t, i);
      ForwardReverseAt(t, i);
    }
    if s in v {
      var i :| 0 <= i < |v| && v[i] == s;
      ReverseOfAt(t, i);
      ForwardReverseAt(t, i);
    }
  }

  /** is_undirect holds exactly for the known types that are their own reverse. */
  lemma UndirectIffSelfReverse(t: TypeTable, s: string)
    requires Distinct(t)
    ensures UndirectOf(t, s).Some? <==> s in AllTypes(t) && ReverseOf(t, s) == Some(s)
  {
    UndirectOfSpec(t, s);
    KnownIffInAllTypes(t, s);
    if Symmetric(t, s) {
      var i :| 0 <= i < |t| && t[i].0 == s && t[i].1 == s;
      ReverseOfAt(t, i);
    }
    if Known(t, s) && ReverseOf(t, s) == Some(s) {
      var i :| 0 <= i < |t| && (t[i].0 == s || t[i].1 == s);
      ReverseOfAt(t, i);
      assert t[i].0 == s && t[i].1 == s;
    }
  }

  // ---------------------------------------------------------------------------
  // make_type_printable: the template at the first (row, column) in row-major
  // order whose name is s; TypeError when no name matches; an IndexError when
  // the printable table has no such row.

  datatype PrintError = TypeError(name: string) | IndexError

  /** Column j of a pair: `pair[j]` in the source. */
  function Column(pair: TypePair, j: int): string
  {
    if j == 0 then pair.0 else pair.1
  }

  /** `types_printable[i][j]`. */
  function Cell(p: TypeTable, i: nat, j: int): Result<string, PrintError>
  {
    if i < |p| then Success(Column(p[i], j)) else Failure(IndexError)
  }

  /** The scan of make_type_printable from pair i on: a template comes from
      the printable row of a pair at or after i that names s, and TypeError
      always names s. */
  function PrintableFrom(t: TypeTable, p: TypeTable, s: string, i: nat): (r: Result<string, PrintError>)
    ensures r.Success? ==>
      exists k :: i <= k < |t| && k < |p| && (t[k].0 == s || t[k].1 == s) && (r.value == p[k].0 || r.value == p[k].1)
    ensures r.Failure? && r.error.TypeError? ==> r.error.name == s
    decreases |t| - i
  {
    if i >= |t| then Failure(TypeError(s))
    else if t[i].0 == s then Cell(p, i, 0)
    else if t[i].1 == s then Cell(p, i, 1)
    else PrintableFrom(t, p, s, i + 1)
  }

  /** make_type_printable */
  function PrintableOf(t: TypeTable, p: TypeTable, s: string): (r: Result<string, PrintError>)
    ensures r.Success? ==> s in AllTypes(t)
    ensures r.Failure? && r.error.TypeError? ==> r.error.name == s
  {
    PrintableFrom(t, p, s, 0)
  }

  /** k is the first pair at or after lo that names s. */
  ghost predicate FirstMentionFrom(t: TypeTable, s: string, lo: nat, k: int)
  {
    lo <= k < |t| && (t[k].0 == s || t[k].1 == s) &&
    forall j :: lo <= j < k ==> t[j].0 != s && t[j].1 != s
  }

  lemma {:induction false} PrintableFromSpec(t: TypeTable, p: TypeTable, s: string, i: nat)
    ensures PrintableFrom(t, p, s, i) == Failure(TypeError(s)) <==>
      forall k :: i <= k < |t| ==> t[k].0 != s && t[k].1 != s
    ensures forall k :: FirstMentionFrom(t, s, i, k) ==>
      PrintableFrom(t, p, s, i) == Cell(p, k, if t[k].0 == s then 0 else 1)
    decreases |t| - i
  {
    if i < |t| && t[i].0 != s && t[i].1 != s {
      PrintableFromSpec(t, p, s, i + 1);
      forall k | FirstMentionFrom(t, s, i, k)
        ensures PrintableFrom(t, p, s, i) == Cell(p, k, if t[k].0 == s then 0 else 1)
      {
        assert FirstMentionFrom(t, s, i + 1, k);
      }
    }
  }

  /** make_type_printable raises TypeError exactly for unknown names, fails
      only by IndexError on a short printable table, and otherwise returns the
      template of the first (row, column) naming s. */
  lemma PrintableOfSpec(t: TypeTable, p: TypeTable, s: string)
    ensures PrintableOf(t, p, s) == Failure(TypeError(s)) <==> s !in AllTypes(t)
    ensures |p| >= |t| ==> PrintableOf(t, p, s) != Failure(IndexError)
    ensures forall i :: FirstMention(t, s, i) && i < |p| ==>
      PrintableOf(t, p, s) == Success(if t[i].0 == s then p[i].0 else p[i].1)
  {
    PrintableFromSpec(t, p, s, 0);
    KnownIffInAllTypes(t, s);
    forall i | FirstMention(t, s, i)
      ensures PrintableOf(t, p, s) == Cell(p, i, if t[i].0 == s then 0 else 1)
    {
      assert FirstMentionFrom(t, s, 0, i);
    }
    if Known(t, s) {
      var k :| 0 <= k < |t| && (t[k].0 == s || t[k].1 == s);
      FirstMentionExists(t, s, k);
      var i :| FirstMention(t, s, i) && i <= k;
      assert PrintableOf(t, p, s) == Cell(p, i, if t[i].0 == s then 0 else 1);
    }
  }

  /** Some name of pair k is s, so there is a first pair naming s. */
  lemma {:induction false} FirstMentionExists(t: TypeTable, s: string, k: int)
    requires 0 <= k < |t| && (t[k].0 == s || t[k].1 == s)
    ensures exists i :: FirstMention(t, s, i) && i <= k
    decreases k
  {
    if forall j :: 0 <= j < k ==> t[j].0 != s && t[j].1 != s {
      assert FirstMention(t, s, k);
    } else {
      var j :| 0 <= j < k && (t[j].0 == s || t[j].1 == s);
      FirstMentionExists(t, s, j);
    }
  }

  /** With aligned tables and distinct names, each name prints with its own
      template (a symmetric name with its first). */
  lemma PrintableAt(t: TypeTable, p: TypeTable, i: int)
    requires Distinct(t) && |p| == |t| && 0 <= i < |t|
    ensures PrintableOf(t, p, t[i].0) == Success(p[i].0)
    ensures PrintableOf(t, p, t[i].1) == Success(if t[i].0 == t[i].1 then p[i].0 else p[i].1)
  {
    PrintableOfSpec(t, p, t[i].0);
    assert FirstMention(t, t[i].0, i);
    PrintableOfSpec(t, p, t[i].1);
    assert FirstMention(t, t[i].1, i);
  }

  // ---------------------------------------------------------------------------
  // The built-in table.

  lemma DefaultIsDistinct()
    ensures Distinct(DefaultTypes)
    ensures |DefaultPrintable| == |DefaultTypes|
  {
  }

  lemma DefaultFacts()
    ensures AllTypes(DefaultTypes) == ["child_of", "parent_of", "sibling_of", "sibling_of"]
    ensures ReverseOf(DefaultTypes, "child_of") == Some("parent_of")
    ensures ReverseOf(DefaultTypes, "parent_of") == Some("child_of")
    ensures ReverseOf(DefaultTypes, "sibling_of") == Some("sibling_of")
    ensures UndirectOf(DefaultTypes, "sibling_of") == Some("sibling_of")
    ensures UndirectOf(DefaultTypes, "child_of") == None
    ensures PrintableOf(DefaultTypes, DefaultPrintable, "parent_of") == Success("is a parent of {}")
    ensures PrintableOf(DefaultTypes, DefaultPrintable, "depends_on") == Failure(TypeError("depends_on"))
  {
    DefaultIsDistinct();
    ReverseOfAt(DefaultTypes, 0);
    ReverseOfAt(DefaultTypes, 1);
    var t := DefaultTypes;
    assert AllTypes(t) == AllTypes(t[..1]) + [t[1].0, t[1].1];
    assert t[..1][..0] == [];
    UndirectIffSelfReverse(t, "child_of");
    UndirectIffSelfReverse(t, "sibling_of");
    PrintableAt(t, DefaultPrintable, 0);
    PrintableOfSpec(t, DefaultPrintable, "depends_on");
  }

  // ---------------------------------------------------------------------------
  // The classmethods, over a registry whose memo fields mirror the class
  // attributes fwd_types, rev_types and all_types.

  class TypeRegistry {
    const types: TypeTable
    const typesPrintable: TypeTable
    var fwdTypes: Option<seq<string>>
    var revTypes: Option<seq<string>>
    var allTypes: Option<seq<string>>

    /** Each memoised list, once set, equals the list computed afresh. */
    ghost predicate Valid()
      reads this
    {
      && (fwdTypes.Some? ==> fwdTypes.value == ForwardTypes(types))
      && (revTypes.Some? ==> revTypes.value == ReverseTypes(types))
      && (allTypes.Some? ==> allTypes.value == AllTypes(types))
    }

    constructor (types: TypeTable, typesPrintable: TypeTable)
      ensures Valid()
      ensures this.types == types && this.typesPrintable == typesPrintable
      ensures fwdTypes == None && revTypes == None && allTypes == None
    {
      this.types := types;
      this.typesPrintable := typesPrintable;
      fwdTypes, revTypes, allTypes := None, None, None;
    }

    /** get_forward_types */
    method GetForwardTypes() returns (r: seq<string>)
      requires Valid()
      modifies this
      ensures Valid()
      ensures r == ForwardTypes(types) && fwdTypes == Some(r)
      ensures revTypes == old(revTypes) && allTypes == old(allTypes)
    {
      if fwdTypes.None? {
        var acc := [];
        for i := 0 to |types|
          invariant acc == ForwardTypes(types[..i])
        {
          assert types[..i + 1][..i] == types[..i];
          acc := acc + [types[i].0];
        }
        assert types[..|types|] == types;
        fwdTypes := Some(acc);
      }
      r := fwdTypes.value;
    }

    /** get_reverse_types */
    method GetReverseTypes() returns (r: seq<string>)
      requires Valid()
      modifies this
      ensures Valid()
      ensures r == ReverseTypes(types) && revTypes == Some(r)
      ensures fwdTypes == old(fwdTypes) && allTypes == old(allTypes)
    {
      if revTypes.None? {
        var acc := [];
        for i := 0 to |types|
          invariant acc == ReverseTypes(types[..i])
        {
          assert types[..i + 1][..i] == types[..i];
          acc := acc + [types[i].1];
        }
        assert types[..|types|] == types;
        revTypes := Some(acc);
      }
      r := revTypes.value;
    }

    /** get_all_types */
    method GetAllTypes() returns (r: seq<string>)
      requires Valid()
      modifies this
      ensures Valid()
      ensures r == AllTypes(types) && allTypes == Some(r)
      ensures fwdTypes == old(fwdTypes) && revTypes == old(revTypes)
    {
      if allTypes.None? {
        var acc := [];
        for i := 0 to |types|
          invariant acc == AllTypes(types[..i])
        {
          assert types[..i + 1][..i] == types[..i];
          acc := acc + [types[i].0];
          acc := acc + [types[i].1];
        }
        assert types[..|types|] == types;
        allTypes := Some(acc);
      }
      r := allTypes.value;
    }

    /** reverse_to_forward_type */
    method ReverseToForwardType(reverseType: string) returns (r: Option<string>)
      ensures r == ReverseToForward(types, reverseType)
    {
      for i := 0 to |types|
        invariant ReverseToForward(types[i..], reverseType) == ReverseToForward(types, reverseType)
      {
        if types[i].1 == reverseType {
          return Some(types[i].0);
        }
        assert types[i..][1..] == types[i + 1..];
      }
      return None;
    }

    /** forward_to_reverse_type */
    method ForwardToReverseType(forwardType: string) returns (r: Option<string>)
      ensures r == ForwardToReverse(types, forwardType)
    {
      for i := 0 to |types|
        invariant ForwardToReverse(types[i..], forwardType) == ForwardToReverse(types, forwardType)
      {
        if types[i].0 == forwardType {
          return Some(types[i].1);
        }
        assert types[i..][1..] == types[i + 1..];
      }
      return None;
    }

    /** is_undirect */
    method IsUndirect(name: string) returns (r: Option<string>)
      ensures r == UndirectOf(types, name)
    {
      for i := 0 to |types|
        invariant UndirectOf(types[i..], name) == UndirectOf(types, name)
      {
        if types[i].1 == name && types[i].0 == name {
          return Some(types[i].0);
        }
        assert types[i..][1..] == types[i + 1..];
      }
      return None;
    }

    /** reverse_type */
    method ReverseType(name: string) returns (r: Option<string>)
      ensures r == ReverseOf(types, name)
    {
      for i := 0 to |types|
        invariant ReverseOf(types[i..], name) == ReverseOf(types, name)
      {
        if types[i].0 == name {
          return Some(types[i].1);
        }
        if types[i].1 == name {
          return Some(types[i].0);
        }
        assert types[i..][1..] == types[i + 1..];
      }
      return None;
    }

    /** make_type_printable: the nested row/column search. */
    method MakeTypePrintable(name: string) returns (r: Result<string, PrintError>)
      ensures r == PrintableOf(types, typesPrintable, name)
    {
      for i := 0 to |types|
        invariant PrintableFrom(types, typesPrintable, name, i) == PrintableOf(types, typesPrintable, name)
      {
        for j := 0 to 2
          invariant forall k :: 0 <= k < j ==> Column(types[i], k) != name
        {
          if name == Column(types[i], j) {
            assert j == 1 ==> Column(types[i], 0) != name;
            return Cell(typesPrintable, i, j);
          }
        }
        assert Column(types[i], 0) != name && Column(types[i], 1) != name;
      }
      return Failure(TypeError(name));
    }
  }
}
