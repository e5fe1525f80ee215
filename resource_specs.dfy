/**
 * Annotations of the Compute Engine resource types: the flattening of a
 * message schema into property paths, the cell formatters used by the
 * table printer, the table of per-type specifications and its lookup.
 */
module ResourceSpecs {
  import opened Wrappers
  import opened Text

  // =====================================================================
  // Message schemas and their flattening
  // =====================================================================

  /** A protocol-buffer message definition: its fields in definition order. */
  datatype Message = Message(fields: seq<Field>)

  /** One field of a message; a message-typed field carries the nested definition. */
  datatype Field = Field(name: string, repeated: bool, kind: Kind)

  datatype Kind = Scalar | Nested(message: Message)

  // ---------------------------------------------------------------------
  // sorted(all_fields, key=name): a stable insertion sort on names
  // ---------------------------------------------------------------------

  predicate SortedByName(fs: seq<Field>)
  {
    forall i, j :: 0 <= i < j < |fs| ==> LexLe(fs[i].name, fs[j].name)
  }

  /** Places `f` before the first field whose name is not smaller than its own. */
  function InsertByName(f: Field, fs: seq<Field>): (r: seq<Field>)
    ensures multiset(r) == multiset(fs) + multiset{f}
  {
    if fs == [] || LexLe(f.name, fs[0].name) then [f] + fs
    else
      assert fs == [fs[0]] + fs[1..];
      [fs[0]] + InsertByName(f, fs[1..])
  }

  function SortByName(fs: seq<Field>): (r: seq<Field>)
    ensures multiset(r) == multiset(fs)
  {
    if fs == [] then []
    else
      assert fs == [fs[0]] + fs[1..];
      InsertByName(fs[0], SortByName(fs[1..]))
  }

  /** A field no greater than every field of a sorted sequence can go in front of it. */
  lemma SortedCons(h: Field, rest: seq<Field>)
    requires SortedByName(rest)
    requires forall x :: x in rest ==> LexLe(h.name, x.name)
    ensures SortedByName([h] + rest)
  {
    var r := [h] + rest;
    forall i, j | 0 <= i < j < |r|
      ensures LexLe(r[i].name, r[j].name)
    {
      if i == 0 {
        assert r[j] == rest[j - 1] && r[j] in rest;
      } else {
        assert r[i] == rest[i - 1] && r[j] == rest[j - 1];
      }
    }
  }

  lemma {:induction false} InsertByNameSorted(f: Field, fs: seq<Field>)
    requires SortedByName(fs)
    ensures SortedByName(InsertByName(f, fs))
  {
    if fs == [] || LexLe(f.name, fs[0].name) {
      InsertAtFront(f, fs);
      forall x | x in fs
        ensures LexLe(f.name, x.name)
      {
        var j :| 0 <= j < |fs| && fs[j] == x;
        if j > 0 {
          LexLeTransitive(f.name, fs[0].name, fs[j].name);
        }
      }
      SortedCons(f, fs);
    } else {
      InsertPastHead(f, fs);
      var rest := InsertByName(f, fs[1..]);
      assert SortedByName(fs[1..]) by {
        forall i, j | 0 <= i < j < |fs[1..]|
          ensures LexLe(fs[1..][i].name, fs[1..][j].name)
        {
          assert fs[1..][i] == fs[i + 1] && fs[1..][j] == fs[j + 1];
        }
      }
      InsertByNameSorted(f, fs[1..]);
      LexLeTotal(f.name, fs[0].name);
      forall x | x in rest
        ensures LexLe(fs[0].name, x.name)
      {
        assert x in multiset(rest);
        if x != f {
          assert x in multiset(fs[1..]);
          var k :| 0 <= k < |fs[1..]| && fs[1..][k] == x;
          assert fs[k + 1] == x;
        }
      }
      SortedCons(fs[0], rest);
    }
  }

  lemma {:induction false} SortByNameSorted(fs: seq<Field>)
    ensures SortedByName(SortByName(fs))
  {
    if fs != [] {
      SortByNameSorted(fs[1..]);
      InsertByNameSorted(fs[0], SortByName(fs[1..]));
    }
  }

  // ---------------------------------------------------------------------
  // the flattening itself
  // ---------------------------------------------------------------------

  /** Every entry of `paths` prefixed with `p`. */
  function Prefixed(p: string, paths: seq<string>): (r: seq<string>)
    ensures |r| == |paths|
    ensures forall i :: 0 <= i < |r| ==> r[i] == p + paths[i]
  {
    seq(|paths|, i requires 0 <= i < |paths| => p + paths[i])
  }

  /**
   * The paths one field contributes: `name` or `name[]` for a scalar, and
   * each path of the nested message behind `name.` or `name[].` otherwise.
   */
  function FieldPaths(f: Field): seq<string>
    decreases f, 0
  {
    match f.kind
    case Scalar => [if f.repeated then f.name + "[]" else f.name]
    case Nested(m) => Prefixed(if f.repeated then f.name + "[]." else f.name + ".", DefinitionToFields(m))
  }

  /** The paths of `fields` (all fields of `owner`) in order, concatenated. */
  function FieldsPaths(fields: seq<Field>, owner: Message): seq<string>
    requires forall g :: g in fields ==> g in owner.fields
    decreases owner, 1, |fields|
  {
    if fields == [] then []
    else
      assert fields[0] in owner.fields;
      FieldPaths(fields[0]) + FieldsPaths(fields[1..], owner)
  }

  /** The flattened property paths of a message, its fields taken in ascending name order. */
  function DefinitionToFields(m: Message): seq<string>
    decreases m, 2
  {
    var sorted := SortByName(m.fields);
    assert forall g :: g in sorted ==> g in multiset(m.fields);
    FieldsPaths(sorted, m)
  }

  // ---------------------------------------------------------------------
  // one path per scalar leaf
  // ---------------------------------------------------------------------

  /** The number of scalar fields reachable in the schema tree of `m`. */
  function LeafCount(m: Message): nat
    decreases m, 2
  {
    FieldsLeafCount(m.fields, m)
  }

  function FieldsLeafCount(fields: seq<Field>, owner: Message): nat
    requires forall g :: g in fields ==> g in owner.fields
    decreases owner, 1, |fields|
  {
    if fields == [] then 0
    else
      assert fields[0] in owner.fields;
      FieldLeafCount(fields[0]) + FieldsLeafCount(fields[1..], owner)
  }

  function FieldLeafCount(f: Field): nat
    decreases f, 0
  {
    match f.kind
    case Scalar => 1
    case Nested(m) => LeafCount(m)
  }

  lemma {:induction false} InsertKeepsLeafCount(f: Field, fields: seq<Field>, owner: Message)
    requires f in owner.fields
    requires forall g :: g in fields ==> g in owner.fields
    ensures forall g :: g in InsertByName(f, fields) ==> g in owner.fields
    ensures FieldsLeafCount(InsertByName(f, fields), owner) == FieldLeafCount(f) + FieldsLeafCount(fields, owner)
  {
    var r := InsertByName(f, fields);
    assert forall g :: g in r ==> g in multiset(r);
    if !(fields == [] || LexLe(f.name, fields[0].name)) {
      InsertKeepsLeafCount(f, fields[1..], owner);
      assert r[1..] == InsertByName(f, fields[1..]);
    } else {
      assert r[1..] == fields;
    }
  }

  lemma {:induction false} SortKeepsLeafCount(fields: seq<Field>, owner: Message)
    requires forall g :: g in fields ==> g in owner.fields
    ensures forall g :: g in SortByName(fields) ==> g in owner.fields
    ensures FieldsLeafCount(SortByName(fields), owner) == FieldsLeafCount(fields, owner)
  {
    var r := SortByName(fields);
    assert forall g :: g in r ==> g in multiset(r);
    if fields != [] {
      SortKeepsLeafCount(fields[1..], owner);
      InsertKeepsLeafCount(fields[0], SortByName(fields[1..]), owner);
    }
  }

  /** The flattening yields exactly one path per scalar leaf of the schema tree. */
  lemma {:induction false} PathCountIsLeafCount(m: Message)
    ensures |DefinitionToFields(m)| == LeafCount(m)
    decreases m, 2
  {
    SortKeepsLeafCount(m.fields, m);
    FieldsPathCount(SortByName(m.fields), m);
  }

  lemma {:induction false} FieldsPathCount(fields: seq<Field>, owner: Message)
    requires forall g :: g in fields ==> g in owner.fields
    ensures |FieldsPaths(fields, owner)| == FieldsLeafCount(fields, owner)
    decreases owner, 1, |fields|
  {
    if fields != [] {
      assert fields[0] in owner.fields;
      FieldPathCount(fields[0]);
      FieldsPathCount(fields[1..], owner);
    }
  }

  lemma {:induction false} FieldPathCount(f: Field)
    ensures |FieldPaths(f)| == FieldLeafCount(f)
    decreases f, 0
  {
    if f.kind.Nested? {
      PathCountIsLeafCount(f.kind.message);
    }
  }

  // ---------------------------------------------------------------------
  // ascending order under a side condition
  // ---------------------------------------------------------------------

  /** Neither name starts the other. */
  predicate Unrelated(a: string, b: string)
  {
    !StartsWith(a, b) && !StartsWith(b, a)
  }

  /** `rel` holds between the names of any two distinct positions of `fs`. */
  predicate Pairwise(fs: seq<Field>, rel: (string, string) -> bool)
  {
    forall i, j :: 0 <= i < |fs| && 0 <= j < |fs| && i != j ==> rel(fs[i].name, fs[j].name)
  }

  /** No sibling's name is a prefix of another sibling's name (nor equal to it). */
  predicate PrefixFree(fs: seq<Field>)
  {
    Pairwise(fs, Unrelated)
  }

  /** `PrefixFree` holds among the siblings of every message in the schema tree. */
  predicate PrefixFreeSchema(m: Message)
    decreases m
  {
    PrefixFree(m.fields) &&
    forall i :: 0 <= i < |m.fields| ==> match m.fields[i].kind
      case Scalar => true
      case Nested(sub) => PrefixFreeSchema(sub)
  }

  /** Strictly ascending: each path sorts before every later one and differs from it. */
  predicate StrictlyAscending(paths: seq<string>)
  {
    forall i, j :: 0 <= i < j < |paths| ==> LexLe(paths[i], paths[j]) && paths[i] != paths[j]
  }

  /** A field occurring at least twice in a sequence sits at two different positions. */
  lemma {:induction false} TwoPositions(fs: seq<Field>, x: Field)
    requires multiset(fs)[x] >= 2
    ensures exists i, j :: 0 <= i < |fs| && 0 <= j < |fs| && i != j && fs[i] == x && fs[j] == x
  {
    assert fs == [fs[0]] + fs[1..];
    var tail := fs[1..];
    if fs[0] == x {
      assert x in multiset(tail);
      var k :| 0 <= k < |tail| && tail[k] == x;
      assert fs[k + 1] == x;
    } else {
      TwoPositions(tail, x);
      var i, j :| 0 <= i < |tail| && 0 <= j < |tail| && i != j && tail[i] == x && tail[j] == x;
      assert fs[i + 1] == x && fs[j + 1] == x;
    }
  }

  /** A relation between all sibling names does not depend on their order. */
  lemma PairwisePermutation(fs: seq<Field>, gs: seq<Field>, rel: (string, string) -> bool)
    requires multiset(fs) == multiset(gs) && Pairwise(fs, rel)
    ensures Pairwise(gs, rel)
  {
    forall i, j | 0 <= i < |gs| && 0 <= j < |gs| && i != j
      ensures rel(gs[i].name, gs[j].name)
    {
      var x, y := gs[i], gs[j];
      if x == y {
        assert multiset(gs)[x] >= 2 by {
          assert gs == gs[..i] + [x] + gs[i + 1..];
          assert x in multiset(gs[..i] + gs[i + 1..]) by {
            if j < i {
              assert (gs[..i] + gs[i + 1..])[j] == y;
            } else {
              assert (gs[..i] + gs[i + 1..])[j - 1] == y;
            }
          }
          assert multiset(gs) == multiset(gs[..i] + gs[i + 1..]) + multiset{x};
        }
        TwoPositions(fs, x);
      } else {
        assert x in multiset(fs) && y in multiset(fs);
        assert x in fs && y in fs;
      }
    }
  }

  /** Sorting keeps any relation that holds between all sibling names. */
  lemma SortKeepsPairwise(fs: seq<Field>, rel: (string, string) -> bool)
    requires Pairwise(fs, rel)
    ensures Pairwise(SortByName(fs), rel)
  {
    PairwisePermutation(fs, SortByName(fs), rel);
  }

  /** Every path a field contributes starts with the field's name. */
  lemma FieldPathsStartWithName(f: Field)
    ensures forall p :: p in FieldPaths(f) ==> StartsWith(p, f.name)
  {
    forall p | p in FieldPaths(f)
      ensures StartsWith(p, f.name)
    {
      match f.kind
      case Scalar =>
      case Nested(m) =>
        var sep := if f.repeated then f.name + "[]." else f.name + ".";
        var i :| 0 <= i < |FieldPaths(f)| && FieldPaths(f)[i] == p;
        assert p == f.name + (sep[|f.name|..] + DefinitionToFields(m)[i]);
    }
  }

  lemma PrefixedAscending(p: string, paths: seq<string>)
    requires StrictlyAscending(paths)
    ensures StrictlyAscending(Prefixed(p, paths))
  {
    forall i, j | 0 <= i < j < |paths|
      ensures LexLe(p + paths[i], p + paths[j]) && p + paths[i] != p + paths[j]
    {
      LexLeCommonPrefix(p, paths[i], paths[j]);
      assert (p + paths[i])[|p|..] == paths[i];
      assert (p + paths[j])[|p|..] == paths[j];
    }
  }

  lemma ConcatAscending(a: seq<string>, b: seq<string>)
    requires StrictlyAscending(a) && StrictlyAscending(b)
    requires forall x, y :: x in a && y in b ==> LexLe(x, y) && x != y
    ensures StrictlyAscending(a + b)
  {
    forall i, j | 0 <= i < j < |a + b|
      ensures LexLe((a + b)[i], (a + b)[j]) && (a + b)[i] != (a + b)[j]
    {
      if i < |a| && j >= |a| {
        assert (a + b)[i] in a && (a + b)[j] in b;
      } else if i >= |a| {
        assert (a + b)[i] == b[i - |a|] && (a + b)[j] == b[j - |a|];
      }
    }
  }

  /**
   * Paths of fields whose names all sort after `n`, and are unrelated to it,
   * sort after anything that extends `n`.
   */
  lemma {:induction false} FieldsPathsAbove(fields: seq<Field>, owner: Message, n: string, x: string)
    requires forall g :: g in fields ==> g in owner.fields
    requires forall j :: 0 <= j < |fields| ==> LexLe(n, fields[j].name) && Unrelated(n, fields[j].name)
    ensures forall b :: b in FieldsPaths(fields, owner) ==> LexLe(n + x, b) && n + x != b
    decreases |fields|
  {
    if fields != [] {
      var f := fields[0];
      FieldPathsStartWithName(f);
      forall b | b in FieldPaths(f)
        ensures LexLe(n + x, b) && n + x != b
      {
        assert b == f.name + b[|f.name|..];
        LexLeExtend(n, f.name, x, b[|f.name|..]);
      }
      FieldsPathsAbove(fields[1..], owner, n, x);
    }
  }

  /**
   * When every message of the schema tree has prefix-free sibling names, the
   * flattening is strictly ascending, hence free of duplicates.
   */
  lemma {:induction false} DefinitionToFieldsAscending(m: Message)
    requires PrefixFreeSchema(m)
    ensures StrictlyAscending(DefinitionToFields(m))
    decreases m, 2
  {
    var sorted := SortByName(m.fields);
    assert forall g :: g in sorted ==> g in multiset(m.fields);
    SortByNameSorted(m.fields);
    SortKeepsPairwise(m.fields, Unrelated);
    forall g | g in sorted && g.kind.Nested?
      ensures PrefixFreeSchema(g.kind.message)
    {
      var i :| 0 <= i < |m.fields| && m.fields[i] == g;
    }
    FieldsPathsAscending(sorted, m);
  }

  lemma {:induction false} FieldsPathsAscending(fields: seq<Field>, owner: Message)
    requires forall g :: g in fields ==> g in owner.fields
    requires SortedByName(fields) && PrefixFree(fields)
    requires forall g :: g in fields && g.kind.Nested? ==> PrefixFreeSchema(g.kind.message)
    ensures StrictlyAscending(FieldsPaths(fields, owner))
    decreases owner, 1, |fields|
  {
    if fields != [] {
      var f := fields[0];
      var rest := fields[1..];
      assert f in owner.fields;
      FieldPathsAscending(f);
      assert PrefixFree(rest) by {
        forall i, j | 0 <= i < |rest| && 0 <= j < |rest| && i != j
          ensures Unrelated(rest[i].name, rest[j].name)
        {
          assert rest[i] == fields[i + 1] && rest[j] == fields[j + 1];
        }
      }
      FieldsPathsAscending(rest, owner);
      FieldPathsStartWithName(f);
      forall a, b | a in FieldPaths(f) && b in FieldsPaths(rest, owner)
        ensures LexLe(a, b) && a != b
      {
        forall j | 0 <= j < |rest|
          ensures LexLe(f.name, rest[j].name) && Unrelated(f.name, rest[j].name)
        {
          assert rest[j] == fields[j + 1];
        }
        assert a == f.name + a[|f.name|..];
        FieldsPathsAbove(rest, owner, f.name, a[|f.name|..]);
      }
      ConcatAscending(FieldPaths(f), FieldsPaths(rest, owner));
    }
  }

  lemma {:induction false} FieldPathsAscending(f: Field)
    requires f.kind.Nested? ==> PrefixFreeSchema(f.kind.message)
    ensures StrictlyAscending(FieldPaths(f))
    decreases f, 0
  {
    match f.kind
    case Scalar =>
    case Nested(m) =>
      DefinitionToFieldsAscending(m);
      PrefixedAscending(if f.repeated then f.name + "[]." else f.name + ".", DefinitionToFields(m));
  }

  // ---------------------------------------------------------------------
  // no duplicates when sibling names are distinct
  // ---------------------------------------------------------------------

  /** A protocol-buffer identifier: it contains neither `.` nor `[`. */
  predicate SimpleName(name: string)
  {
    forall i :: 0 <= i < |name| ==> name[i] != '.' && name[i] != '['
  }

  predicate Distinct(a: string, b: string)
  {
    a != b
  }

  /** Every message of the tree has simple, pairwise distinct field names. */
  predicate DistinctNamesSchema(m: Message)
    decreases m
  {
    Pairwise(m.fields, Distinct) &&
    forall i :: 0 <= i < |m.fields| ==> SimpleName(m.fields[i].name) && match m.fields[i].kind
      case Scalar => true
      case Nested(sub) => DistinctNamesSchema(sub)
  }

  predicate NoDuplicates(paths: seq<string>)
  {
    forall i, j :: 0 <= i < j < |paths| ==> paths[i] != paths[j]
  }

  /** The part of a path before its first `.` or `[`: the top-level field it belongs to. */
  function Head(path: string): string
  {
    if path == [] || path[0] == '.' || path[0] == '[' then [] else [path[0]] + Head(path[1..])
  }

  lemma {:induction false} HeadOfExtension(name: string, rest: string)
    requires SimpleName(name)
    requires rest == [] || rest[0] == '.' || rest[0] == '['
    ensures Head(name + rest) == name
  {
    if name == [] {
      assert name + rest == rest;
    } else {
      assert (name + rest)[1..] == name[1..] + rest;
      HeadOfExtension(name[1..], rest);
      assert name == [name[0]] + name[1..];
    }
  }

  lemma FieldPathsHead(f: Field)
    requires SimpleName(f.name)
    ensures forall p :: p in FieldPaths(f) ==> Head(p) == f.name
  {
    forall p | p in FieldPaths(f)
      ensures Head(p) == f.name
    {
      match f.kind
      case Scalar =>
        if f.repeated {
          HeadOfExtension(f.name, "[]");
        } else {
          HeadOfExtension(f.name, "");
          assert f.name + "" == f.name;
        }
      case Nested(m) =>
        var i :| 0 <= i < |FieldPaths(f)| && FieldPaths(f)[i] == p;
        var tail := (if f.repeated then "[]." else ".") + DefinitionToFields(m)[i];
        assert p == f.name + tail;
        HeadOfExtension(f.name, tail);
    }
  }

  /** No path of fields whose names all differ from `n` belongs to a field named `n`. */
  lemma {:induction false} FieldsPathsAvoidHead(fields: seq<Field>, owner: Message, n: string)
    requires forall g :: g in fields ==> g in owner.fields
    requires forall j :: 0 <= j < |fields| ==> SimpleName(fields[j].name) && fields[j].name != n
    ensures forall b :: b in FieldsPaths(fields, owner) ==> Head(b) != n
    decreases |fields|
  {
    if fields != [] {
      FieldPathsHead(fields[0]);
      FieldsPathsAvoidHead(fields[1..], owner, n);
    }
  }

  lemma PrefixedNoDuplicates(p: string, paths: seq<string>)
    requires NoDuplicates(paths)
    ensures NoDuplicates(Prefixed(p, paths))
  {
    forall i, j | 0 <= i < j < |paths|
      ensures p + paths[i] != p + paths[j]
    {
      assert (p + paths[i])[|p|..] == paths[i];
      assert (p + paths[j])[|p|..] == paths[j];
    }
  }

  lemma ConcatNoDuplicates(a: seq<string>, b: seq<string>)
    requires NoDuplicates(a) && NoDuplicates(b)
    requires forall x, y :: x in a && y in b ==> x != y
    ensures NoDuplicates(a + b)
  {
    forall i, j | 0 <= i < j < |a + b|
      ensures (a + b)[i] != (a + b)[j]
    {
      if i < |a| && j >= |a| {
        assert (a + b)[i] in a && (a + b)[j] in b;
      } else if i >= |a| {
        assert (a + b)[i] == b[i - |a|] && (a + b)[j] == b[j - |a|];
      }
    }
  }

  /**
   * When sibling names are distinct protocol-buffer identifiers throughout
   * the tree, no path is produced twice.
   */
  lemma {:induction false} DefinitionToFieldsNoDuplicates(m: Message)
    requires DistinctNamesSchema(m)
    ensures NoDuplicates(DefinitionToFields(m))
    decreases m, 2
  {
    var sorted := SortByName(m.fields);
    assert forall g :: g in sorted ==> g in multiset(m.fields);
    SortKeepsPairwise(m.fields, Distinct);
    forall g | g in sorted
      ensures SimpleName(g.name) && (g.kind.Nested? ==> DistinctNamesSchema(g.kind.message))
    {
      var i :| 0 <= i < |m.fields| && m.fields[i] == g;
    }
    FieldsPathsNoDuplicates(sorted, m);
  }

  lemma {:induction false} FieldsPathsNoDuplicates(fields: seq<Field>, owner: Message)
    requires forall g :: g in fields ==> g in owner.fields
    requires Pairwise(fields, Distinct)
    requires forall g :: g in fields ==> SimpleName(g.name) && (g.kind.Nested? ==> DistinctNamesSchema(g.kind.message))
    ensures NoDuplicates(FieldsPaths(fields, owner))
    decreases owner, 1, |fields|
  {
    if fields != [] {
      var f := fields[0];
      var rest := fields[1..];
      assert f in owner.fields;
      FieldPathsNoDuplicates(f);
      assert Pairwise(rest, Distinct) by {
        forall i, j | 0 <= i < |rest| && 0 <= j < |rest| && i != j
          ensures Distinct(rest[i].name, rest[j].name)
        {
          assert rest[i] == fields[i + 1] && rest[j] == fields[j + 1];
        }
      }
      FieldsPathsNoDuplicates(rest, owner);
      FieldPathsHead(f);
      forall j | 0 <= j < |rest|
        ensures SimpleName(rest[j].name) && rest[j].name != f.name
      {
        assert rest[j] == fields[j + 1];
        assert Distinct(fields[0].name, fields[j + 1].name);
      }
      FieldsPathsAvoidHead(rest, owner, f.name);
      ConcatNoDuplicates(FieldPaths(f), FieldsPaths(rest, owner));
    }
  }

  lemma {:induction false} FieldPathsNoDuplicates(f: Field)
    requires f.kind.Nested? ==> DistinctNamesSchema(f.kind.message)
    ensures NoDuplicates(FieldPaths(f))
    decreases f, 0
  {
    match f.kind
    case Scalar =>
    case Nested(m) =>
      DefinitionToFieldsNoDuplicates(m);
      PrefixedNoDuplicates(if f.repeated then f.name + "[]." else f.name + ".", DefinitionToFields(m));
  }

  // ---------------------------------------------------------------------
  // the documented example, and where the documented order fails
  // ---------------------------------------------------------------------

  function PointMessage(): Message
  {
    Message([Field("x", false, Scalar), Field("y", false, Scalar), Field("label", false, Scalar)])
  }

  function PolylineMessage(): Message
  {
    Message([Field("point", true, Nested(PointMessage())), Field("label", false, Scalar)])
  }

  lemma SortPair(a: Field, b: Field)
    ensures SortByName([a, b]) == if LexLe(a.name, b.name) then [a, b] else [b, a]
  {
    assert [a, b][1..] == [b] && [b][1..] == [] && [a][1..] == [];
    assert SortByName([b]) == InsertByName(b, []) == [b];
  }

  lemma FieldsPathsPair(a: Field, b: Field, owner: Message)
    requires a in owner.fields && b in owner.fields
    ensures FieldsPaths([a, b], owner) == FieldPaths(a) + FieldPaths(b)
  {
    assert [a, b][1..] == [b] && [b][1..] == [];
    assert FieldsPaths([b], owner) == FieldPaths(b) + FieldsPaths([], owner);
    assert FieldPaths(b) + [] == FieldPaths(b);
  }

  lemma UnfoldDefinition(m: Message)
    ensures forall g :: g in SortByName(m.fields) ==> g in m.fields
    ensures DefinitionToFields(m) == FieldsPaths(SortByName(m.fields), m)
  {
    assert forall g :: g in SortByName(m.fields) ==> g in multiset(m.fields);
  }

  /** A message of plain scalar fields flattens to their names in sorted order. */
  lemma {:induction false} ScalarFieldsPaths(fields: seq<Field>, owner: Message)
    requires forall g :: g in fields ==> g in owner.fields && g.kind.Scalar? && !g.repeated
    ensures FieldsPaths(fields, owner) == seq(|fields|, i requires 0 <= i < |fields| => fields[i].name)
  {
    if fields != [] {
      ScalarFieldsPaths(fields[1..], owner);
    }
  }

  lemma InsertAtFront(f: Field, fs: seq<Field>)
    requires fs == [] || LexLe(f.name, fs[0].name)
    ensures InsertByName(f, fs) == [f] + fs
  {
  }

  lemma InsertPastHead(f: Field, fs: seq<Field>)
    requires fs != [] && !LexLe(f.name, fs[0].name)
    ensures InsertByName(f, fs) == [fs[0]] + InsertByName(f, fs[1..])
  {
  }

  lemma SortSingle(a: Field)
    ensures SortByName([a]) == [a]
  {
    assert [a][1..] == [];
  }

  /** Sorting three fields whose names sit in the order lab < x < y. */
  lemma SortTriple(x: Field, y: Field, lab: Field)
    requires !LexLe(y.name, lab.name) && !LexLe(x.name, lab.name) && LexLe(x.name, y.name)
    ensures SortByName([x, y, lab]) == [lab, x, y]
  {
    SortSingle(lab);
    assert [y, lab][1..] == [lab];
    InsertPastHead(y, [lab]);
    InsertAtFront(y, []);
    assert SortByName([y, lab]) == [lab, y];
    assert [x, y, lab][1..] == [y, lab];
    InsertPastHead(x, [lab, y]);
    assert [lab, y][1..] == [y];
    InsertAtFront(x, [y]);
  }

  lemma PointFieldsSorted()
    ensures SortByName(PointMessage().fields) == [Field("label", false, Scalar), Field("x", false, Scalar), Field("y", false, Scalar)]
  {
    assert !LexLe("y", "label") && !LexLe("x", "label") && LexLe("x", "y");
    SortTriple(Field("x", false, Scalar), Field("y", false, Scalar), Field("label", false, Scalar));
  }

  lemma PointSortedPaths()
    ensures FieldsPaths([Field("label", false, Scalar), Field("x", false, Scalar), Field("y", false, Scalar)], PointMessage())
      == ["label", "x", "y"]
  {
    ScalarFieldsPaths([Field("label", false, Scalar), Field("x", false, Scalar), Field("y", false, Scalar)], PointMessage());
  }

  lemma PointPaths()
    ensures DefinitionToFields(PointMessage()) == ["label", "x", "y"]
  {
    UnfoldDefinition(PointMessage());
    PointFieldsSorted();
    PointSortedPaths();
  }

  lemma RepeatedNestedPaths(name: string, m: Message)
    ensures FieldPaths(Field(name, true, Nested(m))) == Prefixed(name + "[].", DefinitionToFields(m))
  {
  }

  lemma PrefixedThree(p: string, a: string, b: string, c: string)
    ensures Prefixed(p, [a, b, c]) == [p + a, p + b, p + c]
  {
  }

  lemma PointPathsPrefixed()
    ensures Prefixed("point[].", ["label", "x", "y"]) == ["point[].label", "point[].x", "point[].y"]
  {
    var sep := "point[].";
    PrefixedThree(sep, "label", "x", "y");
    assert sep + "label" == "point[].label";
    assert sep + "x" == "point[].x";
    assert sep + "y" == "point[].y";
  }

  lemma PointFieldPaths()
    ensures FieldPaths(Field("point", true, Nested(PointMessage()))) == ["point[].label", "point[].x", "point[].y"]
  {
    PointPaths();
    RepeatedPointField(PointMessage());
  }

  lemma RepeatedPointField(m: Message)
    requires DefinitionToFields(m) == ["label", "x", "y"]
    ensures FieldPaths(Field("point", true, Nested(m))) == ["point[].label", "point[].x", "point[].y"]
  {
    RepeatedNestedPaths("point", m);
    assert "point" + "[]." == "point[].";
    PointPathsPrefixed();
  }

  /** A message whose fields sort to `[a, b]` flattens to the paths of `a` and then those of `b`. */
  lemma TwoFieldDefinition(m: Message, a: Field, b: Field)
    requires SortByName(m.fields) == [a, b]
    ensures DefinitionToFields(m) == FieldPaths(a) + FieldPaths(b)
  {
    UnfoldDefinition(m);
    assert a in SortByName(m.fields) && b in SortByName(m.fields);
    FieldsPathsPair(a, b, m);
  }

  lemma PolylineFieldsSorted()
    ensures SortByName(PolylineMessage().fields) == [Field("label", false, Scalar), Field("point", true, Nested(PointMessage()))]
  {
    SortPair(Field("point", true, Nested(PointMessage())), Field("label", false, Scalar));
    assert !LexLe("point", "label");
  }

  lemma LabelPaths()
    ensures FieldPaths(Field("label", false, Scalar)) == ["label"]
  {
  }

  lemma PolylinePathsJoined()
    ensures ["label"] + ["point[].label", "point[].x", "point[].y"] == ["label", "point[].label", "point[].x", "point[].y"]
  {
  }

  /** The Polyline/Point example of the flattener's documentation. */
  lemma PolylineExample()
    ensures DefinitionToFields(PolylineMessage()) == ["label", "point[].label", "point[].x", "point[].y"]
  {
    var lab := Field("label", false, Scalar);
    var point := Field("point", true, Nested(PointMessage()));
    PolylineFieldsSorted();
    TwoFieldDefinition(PolylineMessage(), lab, point);
    LabelPaths();
    PointFieldPaths();
    PolylinePathsJoined();
  }

  /** The two-field schema of the counterexample: `repeated Inner point` and `string point2`. */
  function PointAndPoint2(): Message
  {
    Message([Field("point", true, Nested(Message([Field("x", false, Scalar)]))), Field("point2", false, Scalar)])
  }

  lemma PointAndPoint2Sorted()
    ensures SortByName(PointAndPoint2().fields) == PointAndPoint2().fields
  {
    SortPair(PointAndPoint2().fields[0], PointAndPoint2().fields[1]);
    assert LexLe("point", "point2");
  }

  lemma RepeatedPointPaths()
    ensures FieldPaths(Field("point", true, Nested(Message([Field("x", false, Scalar)])))) == ["point[].x"]
  {
    var inner := Message([Field("x", false, Scalar)]);
    UnfoldDefinition(inner);
    assert SortByName(inner.fields) == inner.fields;
    ScalarFieldsPaths(inner.fields, inner);
    RepeatedNestedPaths("point", inner);
    assert "point" + "[]." == "point[].";
    assert Prefixed("point[].", ["x"]) == ["point[]." + "x"];
    assert "point[]." + "x" == "point[].x";
  }

  /**
   * The documented "non-decreasing order" does not hold in general: a
   * repeated message field `point` next to a scalar `point2` yields
   * `point[].x` before `point2`, although `'2' < '['`.
   */
  lemma OrderClaimCounterexample()
    ensures DefinitionToFields(PointAndPoint2()) == ["point[].x", "point2"]
    ensures !LexLe("point[].x", "point2")
  {
    PointAndPoint2Paths();
    PointPathAfterPoint2();
  }

  lemma PointAndPoint2Paths()
    ensures DefinitionToFields(PointAndPoint2()) == ["point[].x", "point2"]
  {
    var m := PointAndPoint2();
    PointAndPoint2Sorted();
    assert m.fields == [m.fields[0], m.fields[1]];
    TwoFieldDefinition(m, m.fields[0], m.fields[1]);
    RepeatedPointPaths();
  }

  lemma PointPathAfterPoint2()
    ensures !LexLe("point[].x", "point2")
  {
    assert !LexLe("[].x", "2");
    LexLeCommonPrefix("point", "[].x", "2");
    assert "point" + "[].x" == "point[].x" && "point" + "2" == "point2";
  }

  // =====================================================================
  // Cell formatters
  // =====================================================================

  /** `record.get(key, [])` for a list-valued key. */
  function OrEmpty<T>(o: Option<seq<T>>): seq<T>
  {
    if o.Some? then o.value else []
  }

  /** `','.join(items)`. */
  function CommaJoin(items: seq<string>): string
  {
    Join(items, ",")
  }

  predicate NoComma(items: seq<string>)
  {
    forall i :: 0 <= i < |items| ==> ',' !in items[i]
  }

  /** A comma-joined cell is empty for no items and splits back into its items when none holds a comma. */
  lemma CommaJoinRoundTrip(items: seq<string>)
    ensures items == [] ==> CommaJoin(items) == ""
    ensures items != [] && NoComma(items) ==> Split(CommaJoin(items), ',') == items
  {
    if items != [] && NoComma(items) {
      SplitJoin(items, ',');
    }
  }

  // ---------------------------------------------------------------------
  // firewalls
  // ---------------------------------------------------------------------

  /** One entry of a firewall's `allowed` list. */
  datatype Allowed = Allowed(ipProtocol: Option<string>, ports: Option<seq<string>>)

  datatype Firewall = Firewall(
    allowed: Option<seq<Allowed>>,
    sourceRanges: Option<seq<string>>,
    sourceTags: Option<seq<string>>,
    targetTags: Option<seq<string>>)

  /** The rules one entry contributes: none without a protocol, `proto:port` per port range, else `proto`. */
  function AllowedRules(a: Allowed): seq<string>
  {
    if !Truthy(a.ipProtocol) then []
    else if a.ports.Some? && a.ports.value != [] then
      seq(|a.ports.value|, k requires 0 <= k < |a.ports.value| => a.ipProtocol.value + ":" + a.ports.value[k])
    else [a.ipProtocol.value]
  }

  /** The rules of all entries, in order. */
  function FirewallRules(entries: seq<Allowed>): seq<string>
  {
    if entries == [] then []
    else FirewallRules(entries[..|entries| - 1]) + AllowedRules(entries[|entries| - 1])
  }

  lemma FirewallRulesPrefix(entries: seq<Allowed>, i: nat)
    requires i < |entries|
    ensures FirewallRules(entries[..i + 1]) == FirewallRules(entries[..i]) + AllowedRules(entries[i])
  {
    assert entries[..i + 1][..i] == entries[..i];
  }

  /** The first `j` rules of an entry with ports. */
  function PortRules(protocol: string, ports: seq<string>, j: nat): seq<string>
    requires j <= |ports|
  {
    seq(j, k requires 0 <= k < j => protocol + ":" + ports[k])
  }

  lemma PortRulesStep(protocol: string, ports: seq<string>, j: nat)
    requires j < |ports|
    ensures PortRules(protocol, ports, j + 1) == PortRules(protocol, ports, j) + [protocol + ":" + ports[j]]
  {
  }

  /** The RULES column of a firewall: its rules, comma-joined. */
  method FirewallRulesToCell(firewall: Firewall) returns (cell: string)
    ensures cell == CommaJoin(FirewallRules(OrEmpty(firewall.allowed)))
  {
    var entries := OrEmpty(firewall.allowed);
    var rules: seq<string> := [];
    var i := 0;
    while i < |entries|
      invariant 0 <= i <= |entries|
      invariant rules == FirewallRules(entries[..i])
    {
      var allowed := entries[i];
      FirewallRulesPrefix(entries, i);
      if Truthy(allowed.ipProtocol) {
        var protocol := allowed.ipProtocol.value;
        if allowed.ports.Some? && allowed.ports.value != [] {
          var ports := allowed.ports.value;
          var j := 0;
          while j < |ports|
            invariant 0 <= j <= |ports|
            invariant rules == FirewallRules(entries[..i]) + PortRules(protocol, ports, j)
          {
            PortRulesStep(protocol, ports, j);
            rules := rules + [protocol + ":" + ports[j]];
            j := j + 1;
          }
          assert PortRules(protocol, ports, |ports|) == AllowedRules(allowed);
        } else {
          rules := rules + [protocol];
        }
      }
      i := i + 1;
    }
    assert entries[..|entries|] == entries;
    cell := CommaJoin(rules);
  }

  lemma {:induction false} FirewallRulesNonEmpty(entries: seq<Allowed>)
    ensures forall k :: 0 <= k < |FirewallRules(entries)| ==> FirewallRules(entries)[k] != ""
    ensures FirewallRules(entries) == [] <==> forall i :: 0 <= i < |entries| ==> !Truthy(entries[i].ipProtocol)
  {
    if entries != [] {
      var init := entries[..|entries| - 1];
      FirewallRulesNonEmpty(init);
      var a := entries[|entries| - 1];
      var rules := FirewallRules(entries);
      forall k | 0 <= k < |rules|
        ensures rules[k] != ""
      {
        if k >= |FirewallRules(init)| {
          var r := AllowedRules(a)[k - |FirewallRules(init)|];
          assert |r| >= |a.ipProtocol.value| > 0;
        }
      }
      if forall i :: 0 <= i < |entries| ==> !Truthy(entries[i].ipProtocol) {
        forall i | 0 <= i < |init|
          ensures !Truthy(init[i].ipProtocol)
        {
          assert init[i] == entries[i];
        }
      } else {
        var i :| 0 <= i < |entries| && Truthy(entries[i].ipProtocol);
        if i < |init| {
          assert init[i] == entries[i];
        }
      }
    }
  }

  /** The RULES cell is empty exactly when no entry names a protocol. */
  lemma FirewallRulesCellEmpty(entries: seq<Allowed>)
    ensures CommaJoin(FirewallRules(entries)) == "" <==> forall i :: 0 <= i < |entries| ==> !Truthy(entries[i].ipProtocol)
  {
    FirewallRulesNonEmpty(entries);
    JoinEmpty(FirewallRules(entries), ",");
  }

  lemma {:induction false} FirewallRulesNoComma(entries: seq<Allowed>)
    requires forall i :: 0 <= i < |entries| ==> NoCommaAllowed(entries[i])
    ensures NoComma(FirewallRules(entries))
  {
    if entries != [] {
      FirewallRulesNoComma(entries[..|entries| - 1]);
      var a := entries[|entries| - 1];
      forall k | 0 <= k < |AllowedRules(a)|
        ensures ',' !in AllowedRules(a)[k]
      {
        if a.ports.Some? && a.ports.value != [] {
          assert ',' !in a.ports.value[k];
        }
      }
    }
  }

  predicate NoCommaAllowed(a: Allowed)
  {
    (a.ipProtocol.Some? ==> ',' !in a.ipProtocol.value) &&
    (a.ports.Some? ==> NoComma(a.ports.value))
  }

  /** When protocols and port ranges hold no comma, the RULES cell splits back into the rules. */
  lemma FirewallRulesCellSplits(entries: seq<Allowed>)
    requires forall i :: 0 <= i < |entries| ==> NoCommaAllowed(entries[i])
    requires FirewallRules(entries) != []
    ensures Split(CommaJoin(FirewallRules(entries)), ',') == FirewallRules(entries)
  {
    FirewallRulesNoComma(entries);
    CommaJoinRoundTrip(FirewallRules(entries));
  }

  /** A protocol with port ranges yields one rule per range, in order; one without yields the protocol alone. */
  lemma AllowedRulesShape(a: Allowed)
    requires Truthy(a.ipProtocol)
    ensures a.ports.Some? && a.ports.value != [] ==>
      |AllowedRules(a)| == |a.ports.value| &&
      forall k :: 0 <= k < |a.ports.value| ==> AllowedRules(a)[k] == a.ipProtocol.value + ":" + a.ports.value[k]
    ensures !(a.ports.Some? && a.ports.value != []) ==> AllowedRules(a) == [a.ipProtocol.value]
  {
  }

  function FirewallSourceRangesToCell(firewall: Firewall): string
  {
    CommaJoin(OrEmpty(firewall.sourceRanges))
  }

  function FirewallSourceTagsToCell(firewall: Firewall): string
  {
    CommaJoin(OrEmpty(firewall.sourceTags))
  }

  function FirewallTargetTagsToCell(firewall: Firewall): string
  {
    CommaJoin(OrEmpty(firewall.targetTags))
  }

  /** The SRC_RANGES, SRC_TAGS and TARGET_TAGS cells are empty for missing lists and otherwise split back into them. */
  lemma FirewallListCells(firewall: Firewall)
    ensures OrEmpty(firewall.sourceRanges) == [] ==> FirewallSourceRangesToCell(firewall) == ""
    ensures OrEmpty(firewall.sourceTags) == [] ==> FirewallSourceTagsToCell(firewall) == ""
    ensures OrEmpty(firewall.targetTags) == [] ==> FirewallTargetTagsToCell(firewall) == ""
    ensures OrEmpty(firewall.sourceRanges) != [] && NoComma(OrEmpty(firewall.sourceRanges)) ==>
      Split(FirewallSourceRangesToCell(firewall), ',') == OrEmpty(firewall.sourceRanges)
    ensures OrEmpty(firewall.sourceTags) != [] && NoComma(OrEmpty(firewall.sourceTags)) ==>
      Split(FirewallSourceTagsToCell(firewall), ',') == OrEmpty(firewall.sourceTags)
    ensures OrEmpty(firewall.targetTags) != [] && NoComma(OrEmpty(firewall.targetTags)) ==>
      Split(FirewallTargetTagsToCell(firewall), ',') == OrEmpty(firewall.targetTags)
  {
    CommaJoinRoundTrip(OrEmpty(firewall.sourceRanges));
    CommaJoinRoundTrip(OrEmpty(firewall.sourceTags));
    CommaJoinRoundTrip(OrEmpty(firewall.targetTags));
  }

  // ---------------------------------------------------------------------
  // target pools and backend services
  // ---------------------------------------------------------------------

  datatype TargetPool = TargetPool(healthChecks: Option<seq<string>>)

  /** The HEALTH_CHECKS column: the short name of each health-check URI, comma-joined. */
  function TargetPoolHealthChecksToCell(pool: TargetPool, name: string -> string): string
  {
    var checks := OrEmpty(pool.healthChecks);
    CommaJoin(seq(|checks|, i requires 0 <= i < |checks| => name(checks[i])))
  }

  lemma TargetPoolHealthChecksCellSplits(pool: TargetPool, name: string -> string)
    ensures OrEmpty(pool.healthChecks) == [] ==> TargetPoolHealthChecksToCell(pool, name) == ""
    ensures var checks := OrEmpty(pool.healthChecks);
      checks != [] && (forall i :: 0 <= i < |checks| ==> ',' !in name(checks[i])) ==>
        var pieces := Split(TargetPoolHealthChecksToCell(pool, name), ',');
        |pieces| == |checks| && forall i :: 0 <= i < |checks| ==> pieces[i] == name(checks[i])
  {
    var checks := OrEmpty(pool.healthChecks);
    CommaJoinRoundTrip(seq(|checks|, i requires 0 <= i < |checks| => name(checks[i])));
  }

  datatype Backend = Backend(group: string)

  datatype BackendService = BackendService(backends: Option<seq<Backend>>)

  /** The BACKENDS column: the instance-group URI of each backend, comma-joined. */
  function BackendsToCell(service: BackendService): string
  {
    var backends := OrEmpty(service.backends);
    CommaJoin(seq(|backends|, i requires 0 <= i < |backends| => backends[i].group))
  }

  lemma BackendsCellSplits(service: BackendService)
    ensures OrEmpty(service.backends) == [] ==> BackendsToCell(service) == ""
    ensures var backends := OrEmpty(service.backends);
      backends != [] && (forall i :: 0 <= i < |backends| ==> ',' !in backends[i].group) ==>
        var pieces := Split(BackendsToCell(service), ',');
        |pieces| == |backends| && forall i :: 0 <= i < |backends| ==> pieces[i] == backends[i].group
  {
    var backends := OrEmpty(service.backends);
    CommaJoinRoundTrip(seq(|backends|, i requires 0 <= i < |backends| => backends[i].group));
  }

  // ---------------------------------------------------------------------
  // zones: the next maintenance window
  // ---------------------------------------------------------------------

  datatype MaintenanceWindow = MaintenanceWindow(beginTime: string, endTime: string)

  datatype Zone = Zone(maintenanceWindows: Option<seq<MaintenanceWindow>>)

  /** The position `min(windows, key=beginTime)` picks: a later window replaces it only when strictly earlier. */
  function EarliestWindow(windows: seq<MaintenanceWindow>): (k: nat)
    requires windows != []
    ensures k < |windows|
  {
    if |windows| == 1 then 0
    else
      var k := EarliestWindow(windows[..|windows| - 1]);
      var last := |windows| - 1;
      if LexLe(windows[k].beginTime, windows[last].beginTime) then k else last
  }

  /** `min` finds the first window whose begin time is smallest. */
  lemma {:induction false} EarliestWindowIsFirstMinimum(windows: seq<MaintenanceWindow>)
    requires windows != []
    ensures forall j :: 0 <= j < |windows| ==> LexLe(windows[EarliestWindow(windows)].beginTime, windows[j].beginTime)
    ensures forall j :: 0 <= j < EarliestWindow(windows) ==>
      windows[j].beginTime != windows[EarliestWindow(windows)].beginTime
  {
    var k := EarliestWindow(windows);
    if |windows| > 1 {
      var init := windows[..|windows| - 1];
      var k0 := EarliestWindow(init);
      EarliestWindowIsFirstMinimum(init);
      var last := |windows| - 1;
      var b := windows[last].beginTime;
      if LexLe(windows[k0].beginTime, b) {
        forall j | 0 <= j < |windows|
          ensures LexLe(windows[k].beginTime, windows[j].beginTime)
        {
          if j < last {
            assert init[j] == windows[j];
          }
        }
        forall j | 0 <= j < k
          ensures windows[j].beginTime != windows[k].beginTime
        {
          assert init[j] == windows[j];
        }
      } else {
        LexLeTotal(windows[k0].beginTime, b);
        forall j | 0 <= j < |windows|
          ensures LexLe(b, windows[j].beginTime)
        {
          if j < last {
            assert init[j] == windows[j];
            LexLeTransitive(b, windows[k0].beginTime, windows[j].beginTime);
          } else {
            LexLeReflexive(b);
          }
        }
        forall j | 0 <= j < last
          ensures windows[j].beginTime != b
        {
          assert init[j] == windows[j];
        }
      }
    } else {
      LexLeReflexive(windows[0].beginTime);
    }
  }

  /** The NEXT_MAINTENANCE column: `begin--end` of the earliest window, or empty. */
  function NextMaintenanceToCell(zone: Zone): (cell: string)
    ensures OrEmpty(zone.maintenanceWindows) == [] ==> cell == ""
    ensures OrEmpty(zone.maintenanceWindows) != [] ==>
      var w := OrEmpty(zone.maintenanceWindows)[EarliestWindow(OrEmpty(zone.maintenanceWindows))];
      cell == w.beginTime + "--" + w.endTime
    ensures var windows := OrEmpty(zone.maintenanceWindows);
      windows != [] ==> exists k ::
        && 0 <= k < |windows|
        && cell == windows[k].beginTime + "--" + windows[k].endTime
        && (forall j :: 0 <= j < |windows| ==> LexLe(windows[k].beginTime, windows[j].beginTime))
        && (forall j :: 0 <= j < k ==> windows[j].beginTime != windows[k].beginTime)
  {
    var windows := OrEmpty(zone.maintenanceWindows);
    if windows != [] then
      var k := EarliestWindow(windows);
      EarliestWindowIsFirstMinimum(windows);
      var w := windows[k];
      w.beginTime + "--" + w.endTime
    else ""
  }

  // ---------------------------------------------------------------------
  // regions: quota usage
  // ---------------------------------------------------------------------

  /** A quota as the API returns it; usage and limit are JSON numbers and may carry a fraction. */
  datatype Quota = Quota(metric: string, usage: real, limit: real)

  datatype Region = Region(quotas: Option<seq<Quota>>)

  /** The first quota of the list with the given metric. */
  function FindQuota(quotas: seq<Quota>, metric: string): (r: Option<nat>)
    ensures r.Some? ==> r.value < |quotas| && quotas[r.value].metric == metric
    ensures r.Some? ==> forall j :: 0 <= j < r.value ==> quotas[j].metric != metric
    ensures r.None? ==> forall j :: 0 <= j < |quotas| ==> quotas[j].metric != metric
  {
    if quotas == [] then None
    else if quotas[0].metric == metric then Some(0)
    else match FindQuota(quotas[1..], metric)
      case None => None
      case Some(k) => Some(k + 1)
  }

  /** An integer quota cell: usage truncated and right-aligned in six columns, a slash, then the truncated limit. */
  function QuotaToCell(metric: string, region: Region): string
  {
    var quotas := OrEmpty(region.quotas);
    match FindQuota(quotas, metric)
    case None => ""
    case Some(k) => PadLeft(IntToString(TruncateToInt(quotas[k].usage)), 6) + "/" + IntToString(TruncateToInt(quotas[k].limit))
  }

  lemma NoSlashInNumber(n: int, width: nat)
    ensures '/' !in IntToString(n)
    ensures '/' !in PadLeft(IntToString(n), width)
  {
    var s := IntToString(n);
    var d := NatToString(if n < 0 then -n else n);
    assert forall i :: 0 <= i < |s| ==> s[i] == '-' || IsDigit(s[i]) by {
      if n < 0 {
        forall i | 0 <= i < |s|
          ensures s[i] == '-' || IsDigit(s[i])
        {
          if i > 0 {
            assert s[i] == d[i - 1];
          }
        }
      }
    }
    var p := PadLeft(s, width);
    forall i | 0 <= i < |p|
      ensures p[i] != '/'
    {
      if i >= |p| - |s| {
        assert p[i] == s[i - (|p| - |s|)];
      }
    }
  }

  /**
   * An integer quota cell reads back: it splits at `/` into two numbers
   * that parse to the usage and the limit truncated toward zero.
   */
  lemma QuotaCellRoundTrip(metric: string, region: Region)
    ensures var quotas := OrEmpty(region.quotas);
      match FindQuota(quotas, metric)
      case None => QuotaToCell(metric, region) == ""
      case Some(k) =>
        var pieces := Split(QuotaToCell(metric, region), '/');
        && |pieces| == 2
        && ParseInt(pieces[0]) == Some(TruncateToInt(quotas[k].usage))
        && ParseInt(pieces[1]) == Some(TruncateToInt(quotas[k].limit))
  {
    var quotas := OrEmpty(region.quotas);
    match FindQuota(quotas, metric)
    case None =>
    case Some(k) =>
      var usage, limit := TruncateToInt(quotas[k].usage), TruncateToInt(quotas[k].limit);
      var u := PadLeft(IntToString(usage), 6);
      var l := IntToString(limit);
      NoSlashInNumber(usage, 6);
      NoSlashInNumber(limit, 0);
      SplitAfterPiece(u, l, '/');
      assert Split(l, '/') == [l];
      ParseIntIgnoresPadding(usage, 6);
      ParseIntToString(limit);
  }

  // ---------------------------------------------------------------------
  // operations, images, routes
  // ---------------------------------------------------------------------

  /** A cell holds either text or a number (the HTTP status of an operation). */
  datatype Cell = TextCell(text: string) | NumberCell(number: int)

  datatype Operation = Operation(status: Option<string>, httpErrorStatusCode: Option<int>)

  const HttpOk := 200

  /** The HTTP_STATUS column: for a finished operation its error code, or 200 when there is none. */
  function OperationHttpStatusToCell(operation: Operation): (cell: Cell)
    ensures operation.status != Some("DONE") <==> cell == TextCell("")
    ensures cell.NumberCell? ==> cell.number != 0
    ensures cell.NumberCell? && operation.httpErrorStatusCode.Some? && operation.httpErrorStatusCode.value != 0 ==>
      cell.number == operation.httpErrorStatusCode.value
    ensures cell.NumberCell? && cell.number != HttpOk ==> operation.httpErrorStatusCode == Some(cell.number)
    ensures operation.status == Some("DONE") ==> cell.NumberCell?
    ensures cell.NumberCell? && !IntTruthy(operation.httpErrorStatusCode) ==> cell.number == HttpOk
  {
    if operation.status == Some("DONE") then
      NumberCell(
        if operation.httpErrorStatusCode.Some? && operation.httpErrorStatusCode.value != 0
        then operation.httpErrorStatusCode.value
        else HttpOk)
    else TextCell("")
  }

  datatype Resource = Resource(selfLink: Option<string>)

  /** The PROJECT column: the first `/`-separated segment of the project-relative suffix of the self link. */
  function ProjectToCell(resource: Resource, projectSuffix: string -> string): (cell: string)
    ensures !Truthy(resource.selfLink) ==> cell == ""
    ensures '/' !in cell
    ensures Truthy(resource.selfLink) ==>
      var suffix := projectSuffix(resource.selfLink.value);
      && StartsWith(suffix, cell)
      && ('/' in suffix ==> suffix[|cell|] == '/')
      && ('/' !in suffix ==> cell == suffix)
  {
    if Truthy(resource.selfLink) then
      var suffix := projectSuffix(resource.selfLink.value);
      SplitFirst(suffix, '/');
      Split(suffix, '/')[0]
    else ""
  }

  datatype Route = Route(nextHopInstance: Option<string>, nextHopGateway: Option<string>, nextHopIp: Option<string>)

  /** The NEXT_HOP column: the instance, else the gateway (both shortened), else the IP address, else empty. */
  function RoutesNextHopToCell(route: Route, scopedSuffix: string -> string): string
  {
    if Truthy(route.nextHopInstance) then scopedSuffix(route.nextHopInstance.value)
    else if Truthy(route.nextHopGateway) then scopedSuffix(route.nextHopGateway.value)
    else if Truthy(route.nextHopIp) then route.nextHopIp.value
    else ""
  }

  /**
   * The hops are tried in the order instance, gateway, IP: a hop that is set
   * hides every later one, and a route with none set shows an empty cell.
   */
  lemma RoutesNextHopPriority(r1: Route, r2: Route, scopedSuffix: string -> string)
    ensures Truthy(r1.nextHopInstance) && r1.nextHopInstance == r2.nextHopInstance ==>
      RoutesNextHopToCell(r1, scopedSuffix) == RoutesNextHopToCell(r2, scopedSuffix) == scopedSuffix(r1.nextHopInstance.value)
    ensures !Truthy(r1.nextHopInstance) && !Truthy(r2.nextHopInstance) && Truthy(r1.nextHopGateway) && r1.nextHopGateway == r2.nextHopGateway ==>
      RoutesNextHopToCell(r1, scopedSuffix) == RoutesNextHopToCell(r2, scopedSuffix) == scopedSuffix(r1.nextHopGateway.value)
    ensures !Truthy(r1.nextHopInstance) && !Truthy(r1.nextHopGateway) ==>
      RoutesNextHopToCell(r1, scopedSuffix) == (if Truthy(r1.nextHopIp) then r1.nextHopIp.value else "")
  {
  }

  // =====================================================================
  // The specification table and its lookup
  // =====================================================================

  /** The URI-shortening transformations applied to property paths. */
  datatype Transform = NameTransform | ScopedSuffixTransform

  /** The cell formatters a table column can name. */
  datatype CellFn =
    | FirewallSourceRangesCell | FirewallRulesCell | FirewallSourceTagsCell | FirewallTargetTagsCell
    | ProjectCell | MachineTypeMemoryCell | OperationHttpStatusCell | QuotaCell(metric: string, isInteger: bool)
    | RoutesNextHopCell | TargetPoolHealthChecksCell | NextMaintenanceCell | BackendsCell

  /** An entry of a column list: a property path, a formatter, or a value that is neither. */
  datatype Action = PathAction(path: string) | CallableAction(fn: CellFn) | OtherAction

  datatype InternalSpec = InternalSpec(
    messageClass: string,
    tableCols: seq<(string, Action)>,
    transformations: seq<(string, Transform)>,
    editables: Option<seq<string>>)

  /** A normalised column: a getter for a property path, or a formatter. */
  datatype Column = PropertyGetter(path: string) | Formatter(fn: CellFn)

  datatype Spec = Spec(
    messageClass: string,
    fields: seq<string>,
    tableCols: seq<(string, Column)>,
    transformations: seq<(string, Transform)>,
    editables: Option<seq<string>>)

  datatype SpecError =
    | UnknownResourceType(resourceType: string)
    | BadTableColumn(resourceType: string)
    | MissingMessageClass(messageClass: string)

  predicate Supported(action: Action)
  {
    !action.OtherAction?
  }

  function ColumnOf(action: Action): Column
    requires Supported(action)
  {
    match action
    case PathAction(p) => PropertyGetter(p)
    case CallableAction(f) => Formatter(f)
  }

  predicate AllSupported(cols: seq<(string, Action)>)
  {
    forall i :: 0 <= i < |cols| ==> Supported(cols[i].1)
  }

  /**
   * The specification of a resource type: an unknown type, a column that is
   * neither a path nor a formatter, and a message class the API does not
   * define are errors, tried in that order; otherwise the columns keep their
   * names and order, paths become getters, formatters are kept, the other
   * parts are copied and the fields are the flattened message class.
   */
  method GetSpec(specs: map<string, InternalSpec>, schemas: map<string, Message>, resourceType: string)
    returns (r: Result<Spec, SpecError>)
    ensures resourceType !in specs ==> r == Err(UnknownResourceType(resourceType))
    ensures resourceType in specs && !AllSupported(specs[resourceType].tableCols) ==>
      r == Err(BadTableColumn(resourceType))
    ensures (resourceType in specs && AllSupported(specs[resourceType].tableCols) &&
             specs[resourceType].messageClass !in schemas) ==>
      r == Err(MissingMessageClass(specs[resourceType].messageClass))
    ensures r.Ok? ==>
      resourceType in specs && AllSupported(specs[resourceType].tableCols) &&
      var s := specs[resourceType];
      s.messageClass in schemas &&
      r.value.messageClass == s.messageClass &&
      r.value.fields == DefinitionToFields(schemas[s.messageClass]) &&
      r.value.transformations == s.transformations &&
      r.value.editables == s.editables &&
      |r.value.tableCols| == |s.tableCols| &&
      forall i :: 0 <= i < |s.tableCols| ==>
        r.value.tableCols[i] == (s.tableCols[i].0, ColumnOf(s.tableCols[i].1))
    ensures (resourceType in specs && AllSupported(specs[resourceType].tableCols) &&
             specs[resourceType].messageClass in schemas) ==> r.Ok?
  {
    if resourceType !in specs {
      return Err(UnknownResourceType(resourceType));
    }
    var spec := specs[resourceType];
    var tableCols: seq<(string, Column)> := [];
    var i := 0;
    while i < |spec.tableCols|
      invariant 0 <= i <= |spec.tableCols|
      invariant |tableCols| == i
      invariant forall k :: 0 <= k < i ==>
        Supported(spec.tableCols[k].1) && tableCols[k] == (spec.tableCols[k].0, ColumnOf(spec.tableCols[k].1))
    {
      var (name, action) := spec.tableCols[i];
      match action {
        case PathAction(p) =>
          tableCols := tableCols + [(name, PropertyGetter(p))];
        case CallableAction(f) =>
          tableCols := tableCols + [(name, Formatter(f))];
        case OtherAction =>
          return Err(BadTableColumn(resourceType));
      }
      i := i + 1;
    }
    if spec.messageClass !in schemas {
      return Err(MissingMessageClass(spec.messageClass));
    }
    var fields := DefinitionToFields(schemas[spec.messageClass]);
    return Ok(Spec(spec.messageClass, fields, tableCols, spec.transformations, spec.editables));
  }

  /** The specification table of the Compute Engine resource types. */
  const Specs: map<string, InternalSpec> := map[
    "addresses" := InternalSpec("Address",
      [("NAME", PathAction("name")), ("REGION", PathAction("region")),
       ("ADDRESS", PathAction("address")), ("STATUS", PathAction("status"))],
      [("region", NameTransform), ("users[]", ScopedSuffixTransform)],
      None),
    "disks" := InternalSpec("Disk",
      [("NAME", PathAction("name")), ("ZONE", PathAction("zone")), ("SIZE_GB", PathAction("sizeGb")),
       ("TYPE", PathAction("type")), ("STATUS", PathAction("status"))],
      [("sourceSnapshot", NameTransform), ("type", NameTransform), ("zone", NameTransform)],
      None),
    "diskTypes" := InternalSpec("DiskType",
      [("NAME", PathAction("name")), ("ZONE", PathAction("zone")), ("VALID_DISK_SIZES", PathAction("validDiskSize"))],
      [("zone", NameTransform)],
      None),
    "firewalls" := InternalSpec("Firewall",
      [("NAME", PathAction("name")), ("NETWORK", PathAction("network")),
       ("SRC_RANGES", CallableAction(FirewallSourceRangesCell)), ("RULES", CallableAction(FirewallRulesCell)),
       ("SRC_TAGS", CallableAction(FirewallSourceTagsCell)), ("TARGET_TAGS", CallableAction(FirewallTargetTagsCell))],
      [("network", NameTransform)],
      None),
    "forwardingRules" := InternalSpec("ForwardingRule",
      [("NAME", PathAction("name")), ("REGION", PathAction("region")), ("IP_ADDRESS", PathAction("IPAddress")),
       ("IP_PROTOCOL", PathAction("IPProtocol")), ("TARGET", PathAction("target"))],
      [("region", NameTransform), ("target", ScopedSuffixTransform)],
      None),
    "httpHealthChecks" := InternalSpec("HttpHealthCheck",
      [("NAME", PathAction("name")), ("HOST", PathAction("host")), ("PORT", PathAction("port")),
       ("REQUEST_PATH", PathAction("requestPath"))],
      [],
      None),
    "images" := InternalSpec("Image",
      [("NAME", PathAction("name")), ("PROJECT", CallableAction(ProjectCell)),
       ("DEPRECATED", PathAction("deprecated.state")), ("STATUS", PathAction("status"))],
      [],
      None),
    "instances" := InternalSpec("Instance",
      [("NAME", PathAction("name")), ("ZONE", PathAction("zone")), ("MACHINE_TYPE", PathAction("machineType")),
       ("INTERNAL_IP", PathAction("networkInterfaces[0].networkIP")),
       ("EXTERNAL_IP", PathAction("networkInterfaces[0].accessConfigs[0].natIP")), ("STATUS", PathAction("status"))],
      [("disks[].source", NameTransform), ("machineType", NameTransform),
       ("networkInterfaces[].network", NameTransform), ("zone", NameTransform)],
      None),
    "machineTypes" := InternalSpec("MachineType",
      [("NAME", PathAction("name")), ("ZONE", PathAction("zone")), ("CPUS", PathAction("guestCpus")),
       ("MEMORY_GB", CallableAction(MachineTypeMemoryCell)), ("DEPRECATED", PathAction("deprecated.state"))],
      [("zone", NameTransform)],
      None),
    "networks" := InternalSpec("Network",
      [("NAME", PathAction("name")), ("IPV4_RANGE", PathAction("IPv4Range")), ("GATEWAY_IPV4", PathAction("gatewayIPv4"))],
      [],
      None),
    "projects" := InternalSpec("Project", [], [], None),
    "operations" := InternalSpec("Operation",
      [("NAME", PathAction("name")), ("TYPE", PathAction("operationType")), ("TARGET", PathAction("targetLink")),
       ("HTTP_STATUS", CallableAction(OperationHttpStatusCell)), ("STATUS", PathAction("status")),
       ("TIMESTAMP", PathAction("insertTime"))],
      [("targetLink", ScopedSuffixTransform)],
      None),
    "regions" := InternalSpec("Region",
      [("NAME", PathAction("name")), ("CPUS", CallableAction(QuotaCell("CPUS", false))),
       ("DISKS_GB", CallableAction(QuotaCell("DISKS_TOTAL_GB", true))),
       ("ADDRESSES", CallableAction(QuotaCell("IN_USE_ADDRESSES", true))),
       ("RESERVED_ADDRESSES", CallableAction(QuotaCell("STATIC_ADDRESSES", true))), ("STATUS", PathAction("status"))],
      [("zones[]", NameTransform)],
      None),
    "routes" := InternalSpec("Route",
      [("NAME", PathAction("name")), ("NETWORK", PathAction("network")), ("DEST_RANGE", PathAction("destRange")),
       ("NEXT_HOP", CallableAction(RoutesNextHopCell)), ("PRIORITY", PathAction("priority"))],
      [("network", NameTransform)],
      None),
    "snapshots" := InternalSpec("Snapshot",
      [("NAME", PathAction("name")), ("DISK_SIZE_GB", PathAction("diskSizeGb")), ("SRC_DISK", PathAction("sourceDisk")),
       ("STATUS", PathAction("status"))],
      [("sourceDisk", ScopedSuffixTransform)],
      None),
    "targetPools" := InternalSpec("TargetPool",
      [("NAME", PathAction("name")), ("REGION", PathAction("region")), ("SESSION_AFFINITY", PathAction("sessionAffinity")),
       ("BACKUP", PathAction("backupPool")), ("HEALTH_CHECKS", CallableAction(TargetPoolHealthChecksCell))],
      [("backupPool", NameTransform), ("healthChecks[]", NameTransform), ("instances[]", ScopedSuffixTransform),
       ("region", NameTransform)],
      None),
    "targetPoolInstanceHealth" := InternalSpec("TargetPoolInstanceHealth",
      [],
      [("healthStatus[].instance", ScopedSuffixTransform)],
      None),
    "targetInstances" := InternalSpec("TargetInstance",
      [("NAME", PathAction("name")), ("ZONE", PathAction("zone")), ("INSTANCE", PathAction("instance")),
       ("NAT_POLICY", PathAction("natPolicy"))],
      [("instance", NameTransform), ("zone", NameTransform)],
      None),
    "zones" := InternalSpec("Zone",
      [("NAME", PathAction("name")), ("REGION", PathAction("region")), ("STATUS", PathAction("status")),
       ("NEXT_MAINTENANCE", CallableAction(NextMaintenanceCell))],
      [("region", NameTransform)],
      None),
    "backendServices" := InternalSpec("BackendService",
      [("NAME", PathAction("name")), ("BACKENDS", CallableAction(BackendsCell))],
      [("healthChecks[]", NameTransform), ("backends[].group", ScopedSuffixTransform)],
      Some(["backends", "description", "healthChecks", "port", "portName", "timeoutSec"])),
    "backendServiceGroupHealth" := InternalSpec("BackendServiceGroupHealth",
      [],
      [("healthStatus[].instance", ScopedSuffixTransform)],
      None),
    "urlMaps" := InternalSpec("UrlMap",
      [("NAME", PathAction("name")), ("DEFAULT_SERVICE", PathAction("defaultService"))],
      [("defaultService", NameTransform), ("pathMatchers[].defaultService", NameTransform),
       ("pathMatchers[].pathRules[].service", NameTransform), ("tests[].service", NameTransform)],
      Some(["defaultService", "description", "hostRules", "pathMatchers", "tests"])),
    "targetHttpProxies" := InternalSpec("TargetHttpProxy",
      [("NAME", PathAction("name")), ("URL_MAP", PathAction("urlMap"))],
      [("urlMap", NameTransform)],
      Some([]))
  ]

  // The registered table is checked a few entries at a time.

  lemma ColumnsSupportedPart1(resourceType: string)
    requires resourceType in {"addresses", "disks", "diskTypes"}
    ensures AllSupported(Specs[resourceType].tableCols)
  {
  }

  lemma ColumnsSupportedPart2(resourceType: string)
    requires resourceType in {"firewalls", "forwardingRules", "httpHealthChecks"}
    ensures AllSupported(Specs[resourceType].tableCols)
  {
  }

  lemma ColumnsSupportedPart3(resourceType: string)
    requires resourceType in {"images", "instances", "machineTypes"}
    ensures AllSupported(Specs[resourceType].tableCols)
  {
  }

  lemma ColumnsSupportedPart4(resourceType: string)
    requires resourceType in {"networks", "projects", "operations"}
    ensures AllSupported(Specs[resourceType].tableCols)
  {
  }

  lemma ColumnsSupportedPart5(resourceType: string)
    requires resourceType in {"regions", "routes", "snapshots"}
    ensures AllSupported(Specs[resourceType].tableCols)
  {
  }

  lemma ColumnsSupportedPart6(resourceType: string)
    requires resourceType in {"targetPools", "targetPoolInstanceHealth", "targetInstances"}
    ensures AllSupported(Specs[resourceType].tableCols)
  {
  }

  lemma ColumnsSupportedPart7(resourceType: string)
    requires resourceType in {"zones", "backendServices", "backendServiceGroupHealth"}
    ensures AllSupported(Specs[resourceType].tableCols)
  {
  }

  lemma ColumnsSupportedPart8(resourceType: string)
    requires resourceType in {"urlMaps", "targetHttpProxies"}
    ensures AllSupported(Specs[resourceType].tableCols)
  {
  }

  /** Every column of the registered table is a path or a formatter, so a lookup of a registered type never fails on its columns. */
  lemma RegisteredColumnsSupported(resourceType: string)
    requires resourceType in Specs
    ensures AllSupported(Specs[resourceType].tableCols)
  {
    if resourceType in {"addresses", "disks", "diskTypes"} {
      ColumnsSupportedPart1(resourceType);
    } else if resourceType in {"firewalls", "forwardingRules", "httpHealthChecks"} {
      ColumnsSupportedPart2(resourceType);
    } else if resourceType in {"images", "instances", "machineTypes"} {
      ColumnsSupportedPart3(resourceType);
    } else if resourceType in {"networks", "projects", "operations"} {
      ColumnsSupportedPart4(resourceType);
    } else if resourceType in {"regions", "routes", "snapshots"} {
      ColumnsSupportedPart5(resourceType);
    } else if resourceType in {"targetPools", "targetPoolInstanceHealth", "targetInstances"} {
      ColumnsSupportedPart6(resourceType);
    } else if resourceType in {"zones", "backendServices", "backendServiceGroupHealth"} {
      ColumnsSupportedPart7(resourceType);
    } else {
      assert resourceType in {"urlMaps", "targetHttpProxies"};
      ColumnsSupportedPart8(resourceType);
    }
  }

  /** Only backend services, URL maps and HTTP proxies can be edited in place; HTTP proxies have no editable field. */
  lemma RegisteredEditables(resourceType: string)
    requires resourceType in Specs
    ensures Specs[resourceType].editables.Some? <==>
      resourceType == "backendServices" || resourceType == "urlMaps" || resourceType == "targetHttpProxies"
    ensures resourceType == "targetHttpProxies" ==> Specs[resourceType].editables == Some([])
  {
  }
}
