/** http1_protocol/HttpHeader.h: a list of fields and an index into it, name (in
    lower case) to value to list node. */
module HttpHeaders {
  import opened Bytes
  import opened HttpText

  /** One field; no name and value twice, names compared without case. */
  datatype Field = Field(name: string, value: string)

  // ------------------------------------------------------------- specification

  /** The header as its list of fields alone. */
  predicate Matches(f: Field, name: string) {
    Fold(f.name) == Fold(name)
  }

  predicate Has(fs: seq<Field>, name: string, value: string) {
    exists i :: 0 <= i < |fs| && Matches(fs[i], name) && fs[i].value == value
  }

  predicate HasName(fs: seq<Field>, name: string) {
    exists i :: 0 <= i < |fs| && Matches(fs[i], name)
  }

  function CountName(fs: seq<Field>, name: string): nat {
    if fs == [] then 0 else CountName(fs[..|fs| - 1], name) + (if Matches(fs[|fs| - 1], name) then 1 else 0)
  }

  predicate Unique(fs: seq<Field>) {
    forall i, j :: 0 <= i < j < |fs| ==> !(Fold(fs[i].name) == Fold(fs[j].name) && fs[i].value == fs[j].value)
  }

  function Added(fs: seq<Field>, name: string, value: string): seq<Field> {
    if name == "" || value == "" || Has(fs, name, value) then fs else fs + [Field(name, value)]
  }

  function WithoutName(fs: seq<Field>, name: string): seq<Field> {
    if fs == [] then []
    else
      var f := fs[|fs| - 1];
      WithoutName(fs[..|fs| - 1], name) + (if Matches(f, name) then [] else [f])
  }

  function Without(fs: seq<Field>, name: string, value: string): seq<Field> {
    if fs == [] then []
    else
      var f := fs[|fs| - 1];
      Without(fs[..|fs| - 1], name, value) + (if Matches(f, name) && f.value == value then [] else [f])
  }

  function Replaced(fs: seq<Field>, name: string, value: string): seq<Field> {
    Without(fs, name, value) + [Field(name, value)]
  }

  function Values(fs: seq<Field>, name: string): set<string> {
    if fs == [] then {}
    else Values(fs[..|fs| - 1], name) + (if Matches(fs[|fs| - 1], name) then {fs[|fs| - 1].value} else {})
  }

  lemma {:induction false} ValuesIff(fs: seq<Field>, name: string, value: string)
    ensures value in Values(fs, name) <==> Has(fs, name, value)
  {
    if fs != [] {
      var k := |fs| - 1;
      ValuesIff(fs[..k], name, value);
      if Has(fs[..k], name, value) {
        var i :| 0 <= i < k && Matches(fs[..k][i], name) && fs[..k][i].value == value;
        assert fs[i] == fs[..k][i];
      }
      if Has(fs, name, value) {
        var i :| 0 <= i < |fs| && Matches(fs[i], name) && fs[i].value == value;
        if i < k { assert fs[..k][i] == fs[i]; }
      }
    }
  }

  /** With every field unique, a name has as many fields as values. */
  lemma {:induction false} CountIsValues(fs: seq<Field>, name: string)
    requires Unique(fs)
    ensures CountName(fs, name) == |Values(fs, name)|
  {
    if fs != [] {
      var k := |fs| - 1;
      CountIsValues(fs[..k], name);
      if Matches(fs[k], name) {
        ValuesIff(fs[..k], name, fs[k].value);
        assert fs[k].value !in Values(fs[..k], name);
      }
    }
  }

  lemma {:induction false} CountIffHas(fs: seq<Field>, name: string)
    ensures CountName(fs, name) > 0 <==> HasName(fs, name)
  {
    if fs != [] {
      var k := |fs| - 1;
      CountIffHas(fs[..k], name);
      if HasName(fs[..k], name) {
        var i :| 0 <= i < k && Matches(fs[..k][i], name);
        assert fs[i] == fs[..k][i];
      }
      if HasName(fs, name) {
        var i :| 0 <= i < |fs| && Matches(fs[i], name);
        if i < k { assert fs[..k][i] == fs[i]; }
      }
    }
  }

  /** What Without leaves, and in which order: a field survives exactly when it is
      not the one named. */
  lemma {:induction false} WithoutIff(fs: seq<Field>, name: string, value: string, f: Field)
    ensures f in Without(fs, name, value) <==> f in fs && !(Matches(f, name) && f.value == value)
  {
    if fs != [] {
      WithoutIff(fs[..|fs| - 1], name, value, f);
      assert fs == fs[..|fs| - 1] + [fs[|fs| - 1]];
    }
  }

  lemma {:induction false} WithoutNameIff(fs: seq<Field>, name: string, f: Field)
    ensures f in WithoutName(fs, name) <==> f in fs && !Matches(f, name)
  {
    if fs != [] {
      WithoutNameIff(fs[..|fs| - 1], name, f);
      assert fs == fs[..|fs| - 1] + [fs[|fs| - 1]];
    }
  }

  /** get<std::string>, ref_value: the first value in the order of strings. */
  ghost predicate IsGot(fs: seq<Field>, name: string, value: string) {
    if HasName(fs, name) then IsFirst(value, Values(fs, name)) else value == ""
  }

  // ------------------------------------------------------------------ to_string

  function Line(f: Field): string {
    f.name + ": " + f.value
  }

  predicate Empty(f: Field) {
    f.name == "" || f.value == ""
  }

  /** The fields with a name and a value, one to a line, CRLF between them. */
  function Text(fs: seq<Field>): string {
    if fs == [] then ""
    else
      var s := Text(fs[..|fs| - 1]);
      var f := fs[|fs| - 1];
      if Empty(f) then s else (if s == "" then "" else s + CRLF) + Line(f)
  }

  /** size(): the values' lengths added up. */
  function ValueSize(fs: seq<Field>): nat {
    if fs == [] then 0 else ValueSize(fs[..|fs| - 1]) + |fs[|fs| - 1].value|
  }

  // ------------------------------------------------------------- list and index

  /** A node of the list; its id stands for an iterator to it. */
  datatype Node = Node(id: nat, field: Field)

  type Index = map<string, map<string, nat>>

  function FieldsOf(c: seq<Node>): (fs: seq<Field>)
    ensures |fs| == |c|
  {
    seq(|c|, i requires 0 <= i < |c| => c[i].field)
  }

  predicate IdsDistinct(c: seq<Node>, next: nat) {
    && (forall i, j :: 0 <= i < j < |c| ==> c[i].id != c[j].id)
    && (forall i :: 0 <= i < |c| ==> c[i].id < next)
  }

  /** The index leads from the node's name and value to the node. */
  predicate Indexed(its: Index, x: Node) {
    var n := Fold(x.field.name);
    n in its && x.field.value in its[n] && its[n][x.field.value] == x.id
  }

  /** An entry of the index leads to a node of that name and value. */
  ghost predicate Pointed(c: seq<Node>, n: string, v: string, id: nat) {
    exists x :: x in c && x.id == id && Fold(x.field.name) == n && x.field.value == v
  }

  /** Index entries and nodes are in bijection, and no inner map is empty. */
  ghost predicate Agree(c: seq<Node>, its: Index) {
    && (forall x :: x in c ==> Indexed(its, x))
    && (forall n, v :: n in its && v in its[n] ==> Pointed(c, n, v, its[n][v]))
    && (forall n :: n in its ==> its[n] != map[])
  }

  lemma SameId(c: seq<Node>, next: nat, x: Node, y: Node)
    requires IdsDistinct(c, next) && x in c && y in c && x.id == y.id
    ensures x == y
  {
  }

  lemma AgreeUnique(c: seq<Node>, its: Index, next: nat)
    requires IdsDistinct(c, next) && Agree(c, its)
    ensures Unique(FieldsOf(c))
  {
    forall i, j | 0 <= i < j < |c|
      ensures !(Fold(c[i].field.name) == Fold(c[j].field.name) && c[i].field.value == c[j].field.value)
    {
      assert Indexed(its, c[i]) && Indexed(its, c[j]);
    }
  }

  lemma HasIff(c: seq<Node>, its: Index, name: string, value: string)
    requires Agree(c, its)
    ensures Has(FieldsOf(c), name, value) <==> Fold(name) in its && value in its[Fold(name)]
  {
    var fs, n := FieldsOf(c), Fold(name);
    if Has(fs, name, value) {
      var i :| 0 <= i < |fs| && Matches(fs[i], name) && fs[i].value == value;
      assert Indexed(its, c[i]);
    }
    if n in its && value in its[n] {
      assert Pointed(c, n, value, its[n][value]);
      var x :| x in c && Fold(x.field.name) == n && x.field.value == value;
      var i :| 0 <= i < |c| && c[i] == x;
      assert Matches(fs[i], name);
    }
  }

  lemma HasNameIff(c: seq<Node>, its: Index, name: string)
    requires Agree(c, its)
    ensures HasName(FieldsOf(c), name) <==> Fold(name) in its
  {
    var fs, n := FieldsOf(c), Fold(name);
    if HasName(fs, name) {
      var i :| 0 <= i < |fs| && Matches(fs[i], name);
      assert Indexed(its, c[i]);
    }
    if n in its {
      var v :| v in its[n];
      HasIff(c, its, name, v);
    }
  }

  lemma InnerKeys(c: seq<Node>, its: Index, name: string)
    requires Agree(c, its) && Fold(name) in its
    ensures its[Fold(name)].Keys == Values(FieldsOf(c), name)
  {
    forall v: string
      ensures v in its[Fold(name)] <==> v in Values(FieldsOf(c), name)
    {
      HasIff(c, its, name, v);
      ValuesIff(FieldsOf(c), name, v);
    }
  }

  lemma ValuesEmpty(fs: seq<Field>, name: string)
    requires !HasName(fs, name)
    ensures Values(fs, name) == {} && CountName(fs, name) == 0
  {
    CountIffHas(fs, name);
    forall v: string
      ensures v !in Values(fs, name)
    {
      ValuesIff(fs, name, v);
    }
  }

  // ------------------------------------------------------------------ appending

  function Entered(its: Index, f: Field, id: nat): Index {
    var n := Fold(f.name);
    its[n := (if n in its then its[n] else map[])[f.value := id]]
  }

  lemma AppendKeeps(c: seq<Node>, its: Index, next: nat, f: Field)
    requires IdsDistinct(c, next) && Agree(c, its) && !Has(FieldsOf(c), f.name, f.value)
    ensures IdsDistinct(c + [Node(next, f)], next + 1)
    ensures Agree(c + [Node(next, f)], Entered(its, f, next))
    ensures FieldsOf(c + [Node(next, f)]) == FieldsOf(c) + [f]
  {
    hide Fold, Pointed;
    AppendIndexed(c, its, next, f);
    AppendPoints(c, its, next, f);
    EnteredFull(its, f, next);
  }

  lemma AppendIndexed(c: seq<Node>, its: Index, next: nat, f: Field)
    requires Agree(c, its) && !Has(FieldsOf(c), f.name, f.value)
    ensures forall x :: x in c + [Node(next, f)] ==> Indexed(Entered(its, f, next), x)
  {
    hide Fold, Has, FieldsOf, Pointed;
    HasIff(c, its, f.name, f.value);
    forall x | x in c
      ensures Indexed(Entered(its, f, next), x)
    {
      assert Indexed(its, x);
    }
  }

  lemma EnteredFull(its: Index, f: Field, id: nat)
    requires forall n :: n in its ==> its[n] != map[]
    ensures forall n :: n in Entered(its, f, id) ==> Entered(its, f, id)[n] != map[]
  {
    hide Fold;
    assert f.value in Entered(its, f, id)[Fold(f.name)];
  }

  lemma AppendPoints(c: seq<Node>, its: Index, next: nat, f: Field)
    requires forall n, v :: n in its && v in its[n] ==> Pointed(c, n, v, its[n][v])
    ensures var c', its' := c + [Node(next, f)], Entered(its, f, next);
            forall n, v :: n in its' && v in its'[n] ==> Pointed(c', n, v, its'[n][v])
  {
    var c', its' := c + [Node(next, f)], Entered(its, f, next);
    forall n, v | n in its' && v in its'[n]
      ensures Pointed(c', n, v, its'[n][v])
    {
      if n == Fold(f.name) && v == f.value {
        assert Node(next, f) in c';
      } else {
        assert Pointed(c, n, v, its[n][v]);
        var x :| x in c && x.id == its[n][v] && Fold(x.field.name) == n && x.field.value == v;
        assert x in c';
      }
    }
  }

  // -------------------------------------------------------------------- erasing

  /** The list without the nodes of these ids. */
  function Erase(c: seq<Node>, ids: set<nat>): seq<Node> {
    if c == [] then []
    else
      var x := c[|c| - 1];
      Erase(c[..|c| - 1], ids) + (if x.id in ids then [] else [x])
  }

  lemma {:induction false} EraseIff(c: seq<Node>, ids: set<nat>, x: Node)
    ensures x in Erase(c, ids) <==> x in c && x.id !in ids
  {
    if c != [] {
      EraseIff(c[..|c| - 1], ids, x);
      assert c == c[..|c| - 1] + [c[|c| - 1]];
    }
  }

  lemma {:induction false} EraseTwice(c: seq<Node>, ids: set<nat>, more: set<nat>)
    ensures Erase(Erase(c, ids), more) == Erase(c, ids + more)
  {
    if c != [] {
      var front, x := c[..|c| - 1], c[|c| - 1];
      EraseTwice(front, ids, more);
      if x.id !in ids {
        assert (Erase(front, ids) + [x])[..|Erase(front, ids)|] == Erase(front, ids);
      } else {
        assert Erase(front, ids) + [] == Erase(front, ids);
      }
    }
  }

  lemma {:induction false} EraseNothing(c: seq<Node>)
    ensures Erase(c, {}) == c
  {
    if c != [] {
      EraseNothing(c[..|c| - 1]);
      assert c == c[..|c| - 1] + [c[|c| - 1]];
    }
  }

  lemma {:induction false} EraseDistinct(c: seq<Node>, next: nat, ids: set<nat>)
    requires IdsDistinct(c, next)
    ensures IdsDistinct(Erase(c, ids), next)
  {
    if c != [] {
      var front, x := c[..|c| - 1], c[|c| - 1];
      EraseDistinct(front, next, ids);
      var e := Erase(front, ids);
      forall i | 0 <= i < |e|
        ensures e[i].id != x.id
      {
        EraseIff(front, ids, e[i]);
      }
    }
  }

  /** Erasing the nodes of one name and value. */
  lemma {:induction false} EraseFields(c: seq<Node>, ids: set<nat>, name: string, value: string)
    requires forall x :: x in c ==> (x.id in ids <==> Matches(x.field, name) && x.field.value == value)
    ensures FieldsOf(Erase(c, ids)) == Without(FieldsOf(c), name, value)
  {
    if c != [] {
      var front, x := c[..|c| - 1], c[|c| - 1];
      assert x in c && c == front + [x];
      EraseFields(front, ids, name, value);
      assert FieldsOf(c)[..|c| - 1] == FieldsOf(front);
    }
  }

  /** Erasing all nodes of one name. */
  lemma {:induction false} EraseNameFields(c: seq<Node>, ids: set<nat>, name: string)
    requires forall x :: x in c ==> (x.id in ids <==> Matches(x.field, name))
    ensures FieldsOf(Erase(c, ids)) == WithoutName(FieldsOf(c), name)
  {
    if c != [] {
      var front, x := c[..|c| - 1], c[|c| - 1];
      assert x in c && c == front + [x];
      EraseNameFields(front, ids, name);
      assert FieldsOf(c)[..|c| - 1] == FieldsOf(front);
    }
  }

  /** The index without one entry; an inner map left empty goes too. */
  function Struck(its: Index, n: string, v: string): Index
    requires n in its
  {
    var inner := its[n] - {v};
    if inner == map[] then its - {n} else its[n := inner]
  }

  lemma StruckIff(its: Index, n: string, v: string, m: string, w: string)
    requires n in its
    ensures var its' := Struck(its, n, v);
            && ((m in its' && w in its'[m]) <==> m in its && w in its[m] && !(m == n && w == v))
            && (m in its' && w in its'[m] ==> its'[m][w] == its[m][w])
  {
    var inner := its[n] - {v};
    assert w in its[n] && w != v ==> w in inner;
  }

  lemma StruckFull(its: Index, n: string, v: string)
    requires n in its && forall m :: m in its ==> its[m] != map[]
    ensures forall m :: m in Struck(its, n, v) ==> Struck(its, n, v)[m] != map[]
  {
  }

  lemma StrikeKeeps(c: seq<Node>, its: Index, next: nat, n: string, v: string)
    requires IdsDistinct(c, next) && Agree(c, its) && n in its && v in its[n]
    ensures Agree(Erase(c, {its[n][v]}), Struck(its, n, v))
    ensures forall x :: x in c ==> (x.id == its[n][v] <==> Fold(x.field.name) == n && x.field.value == v)
  {
    hide Fold, Erase, Struck, IdsDistinct, Pointed, Indexed;
    StrikeHits(c, its, next, n, v);
    forall x | x in Erase(c, {its[n][v]})
      ensures Indexed(Struck(its, n, v), x)
    {
      EraseIff(c, {its[n][v]}, x);
      StrikeIndexed(its, n, v, x);
    }
    forall m, w | m in Struck(its, n, v) && w in Struck(its, n, v)[m]
      ensures Pointed(Erase(c, {its[n][v]}), m, w, Struck(its, n, v)[m][w])
    {
      StrikePointed(c, its, n, v, m, w);
    }
    StruckFull(its, n, v);
  }

  /** The entry's node is the only one of that name and value. */
  lemma StrikeHits(c: seq<Node>, its: Index, next: nat, n: string, v: string)
    requires IdsDistinct(c, next) && Agree(c, its) && n in its && v in its[n]
    ensures forall x :: x in c ==> (x.id == its[n][v] <==> Fold(x.field.name) == n && x.field.value == v)
  {
    hide Fold;
    assert Pointed(c, n, v, its[n][v]);
    forall x | x in c
      ensures x.id == its[n][v] <==> Fold(x.field.name) == n && x.field.value == v
    {
      assert Indexed(its, x);
    }
  }

  lemma StrikeIndexed(its: Index, n: string, v: string, x: Node)
    requires n in its && Indexed(its, x) && !(Fold(x.field.name) == n && x.field.value == v)
    ensures Indexed(Struck(its, n, v), x)
  {
    hide Fold, Struck;
    StruckIff(its, n, v, Fold(x.field.name), x.field.value);
  }

  lemma StrikePointed(c: seq<Node>, its: Index, n: string, v: string, m: string, w: string)
    requires Agree(c, its) && n in its && v in its[n]
    requires forall x :: x in c ==> (x.id == its[n][v] <==> Fold(x.field.name) == n && x.field.value == v)
    requires m in Struck(its, n, v) && w in Struck(its, n, v)[m]
    ensures Pointed(Erase(c, {its[n][v]}), m, w, Struck(its, n, v)[m][w])
  {
    hide Fold, Struck, Erase, Indexed;
    StruckIff(its, n, v, m, w);
    assert Pointed(c, m, w, its[m][w]);
    var x :| x in c && x.id == its[m][w] && Fold(x.field.name) == m && x.field.value == w;
    EraseIff(c, {its[n][v]}, x);
  }

  /** Dropping a whole name. */
  lemma StrikeNameKeeps(c: seq<Node>, its: Index, next: nat, n: string, ids: set<nat>)
    requires IdsDistinct(c, next) && Agree(c, its) && n in its && ids == its[n].Values
    ensures Agree(Erase(c, ids), its - {n})
    ensures forall x :: x in c ==> (x.id in ids <==> Fold(x.field.name) == n)
  {
    var c', its' := Erase(c, ids), its - {n};
    forall x | x in c
      ensures x.id in ids <==> Fold(x.field.name) == n
    {
      assert Indexed(its, x);
      if x.id in ids {
        var v :| v in its[n] && its[n][v] == x.id;
        assert Pointed(c, n, v, its[n][v]);
        var y :| y in c && y.id == its[n][v] && Fold(y.field.name) == n;
        SameId(c, next, x, y);
      }
    }
    forall x | x in c'
      ensures Indexed(its', x)
    {
      EraseIff(c, ids, x);
      assert Indexed(its, x);
    }
    forall m, w | m in its' && w in its'[m]
      ensures Pointed(c', m, w, its'[m][w])
    {
      assert Pointed(c, m, w, its[m][w]);
      var x :| x in c && x.id == its[m][w] && Fold(x.field.name) == m && x.field.value == w;
      EraseIff(c, ids, x);
    }
  }

  // ------------------------------------------------------------------ the class

  class HttpHeader {
    var container: seq<Node>
    var its: Index
    var next: nat

    ghost predicate Valid()
      reads this
    {
      IdsDistinct(container, next) && Agree(container, its)
    }

    /** The fields, in the order of the list. */
    ghost function Fields(): seq<Field>
      reads this
    {
      FieldsOf(container)
    }

    constructor ()
      ensures Valid() && Fields() == []
    {
      container, its, next := [], map[], 0;
    }

    /** No field twice, in whatever state. */
    lemma FieldsUnique()
      requires Valid()
      ensures Unique(Fields())
    {
      AgreeUnique(container, its, next);
    }

    method Count(name: string) returns (n: nat)
      requires Valid()
      ensures n == CountName(Fields(), name)
    {
      HasNameIff(container, its, name);
      if Fold(name) !in its {
        ValuesEmpty(Fields(), name);
        return 0;
      }
      FieldsUnique();
      CountIsValues(Fields(), name);
      InnerKeys(container, its, name);
      n := |its[Fold(name)]|;
      assert n == |its[Fold(name)].Keys|;
    }

    method ContainsName(name: string) returns (found: bool)
      requires Valid()
      ensures found <==> HasName(Fields(), name)
    {
      HasNameIff(container, its, name);
      found := Fold(name) in its;
    }

    method CountValue(name: string, value: string) returns (n: nat)
      requires Valid()
      ensures n == if Has(Fields(), name, value) then 1 else 0
    {
      HasIff(container, its, name, value);
      if Fold(name) !in its {
        return 0;
      }
      n := if value in its[Fold(name)] then 1 else 0;
    }

    /** contains with value_ignore_case. */
    method ContainsIgnoreCase(name: string, value: string) returns (found: bool)
      requires Valid()
      ensures found <==> exists v :: Has(Fields(), name, v) && Fold(v) == Fold(value)
    {
      hide Agree, IdsDistinct, FieldsOf, Has;
      forall v: string
        ensures Has(Fields(), name, v) <==> Fold(name) in its && v in its[Fold(name)]
      {
        HasIff(container, its, name, v);
      }
      if Fold(name) !in its {
        return false;
      }
      var left := its[Fold(name)].Keys;
      ghost var seen: set<string> := {};
      while left != {}
        invariant left + seen == its[Fold(name)].Keys
        invariant forall v :: v in seen ==> Fold(v) != Fold(value)
        decreases |left|
      {
        assert |left| != 0;
        var v :| v in left;
        if Fold(v) == Fold(value) {
          assert v in its[Fold(name)];
          return true;
        }
        left, seen := left - {v}, seen + {v};
      }
      found := false;
    }

    /** emplace_back and the entry for it. */
    method Append(name: string, value: string)
      requires Valid() && !Has(Fields(), name, value)
      modifies this
      ensures Valid() && Fields() == old(Fields()) + [Field(name, value)]
    {
      var f := Field(name, value);
      AppendKeeps(container, its, next, f);
      container := container + [Node(next, f)];
      its := Entered(its, f, next);
      next := next + 1;
    }

    method Add(name: string, value: string) returns (added: bool)
      requires Valid()
      modifies this
      ensures Valid() && Fields() == Added(old(Fields()), name, value)
      ensures added <==> name != "" && value != "" && !Has(old(Fields()), name, value)
    {
      if |name| == 0 || |value| == 0 {
        return false;
      }
      var n := CountValue(name, value);
      if n > 0 {
        return false;
      }
      Append(name, value);
      added := true;
    }

    /** del of one name and value. */
    method DelValue(name: string, value: string) returns (found: bool)
      requires Valid()
      modifies this
      ensures Valid() && Fields() == Without(old(Fields()), name, value)
      ensures found <==> Has(old(Fields()), name, value)
    {
      hide Agree, IdsDistinct, Erase, Without, Has, FieldsOf;
      HasIff(container, its, name, value);
      var n := Fold(name);
      if n !in its || value !in its[n] {
        WithoutAbsent(Fields(), name, value);
        return false;
      }
      var id := its[n][value];
      StrikeKeeps(container, its, next, n, value);
      EraseDistinct(container, next, {id});
      EraseFields(container, {id}, name, value);
      container := Erase(container, {id});
      var inner := its[n] - {value};
      its := its[n := inner];
      if |inner| == 0 {
        its := its - {n};
      }
      assert its == Struck(old(its), n, value);
      found := true;
    }

    /** del of a whole name: node after node, then the entry. */
    method Del(name: string) returns (found: bool)
      requires Valid()
      modifies this
      ensures Valid() && Fields() == WithoutName(old(Fields()), name)
      ensures found <==> HasName(old(Fields()), name)
    {
      hide Agree, IdsDistinct, Erase, WithoutName, HasName, FieldsOf;
      HasNameIff(container, its, name);
      var n := Fold(name);
      if n !in its {
        WithoutNameAbsent(Fields(), name);
        return false;
      }
      StrikeNameKeeps(container, its, next, n, its[n].Values);
      EraseDistinct(container, next, its[n].Values);
      EraseNameFields(container, its[n].Values, name);
      EraseNothing(container);
      var left := its[n].Keys;
      ghost var gone: set<nat> := {};
      while left != {}
        invariant its == old(its) && next == old(next) && left <= its[n].Keys
        invariant container == Erase(old(container), gone)
        invariant forall id :: id in gone ==> id in its[n].Values
        invariant forall v :: v in its[n] ==> v in left || its[n][v] in gone
        decreases |left|
      {
        assert |left| != 0;
        var v :| v in left;
        var id := its[n][v];
        EraseTwice(old(container), gone, {id});
        container := Erase(container, {id});
        left, gone := left - {v}, gone + {id};
      }
      SameSet(gone, its[n]);
      its := its - {n};
      found := true;
    }

    /** set of one value: that field goes to the end. */
    method Set(name: string, value: string)
      requires Valid()
      modifies this
      ensures Valid() && Fields() == Replaced(old(Fields()), name, value)
    {
      var _ := DelValue(name, value);
      WithoutHasNot(old(Fields()), name, value);
      Append(name, value);
    }

    /** get<std::string>: values.cbegin()->first. */
    method Get(name: string) returns (value: string)
      requires Valid()
      ensures IsGot(Fields(), name, value)
    {
      HasNameIff(container, its, name);
      if Fold(name) !in its {
        return "";
      }
      InnerKeys(container, its, name);
      var all := its[Fold(name)].Keys;
      assert |all| != 0 by {
        var v :| v in its[Fold(name)];
        assert v in all;
      }
      FirstExists(all);
      value :| value in all && IsFirst(value, all);
    }

    method ToString() returns (s: string)
      requires Valid()
      ensures s == Text(Fields())
    {
      s := "";
      for i := 0 to |container|
        invariant s == Text(Fields()[..i])
      {
        var f := container[i].field;
        assert Fields()[..i + 1][..i] == Fields()[..i] && Fields()[..i + 1][i] == f;
        if |f.name| == 0 || |f.value| == 0 {
          continue;
        }
        if |s| > 0 {
          s := s + CRLF;
        }
        s := s + f.name + ": " + f.value;
      }
      assert Fields()[..|container|] == Fields();
    }

    /** container() */
    method List() returns (fs: seq<Field>)
      ensures fs == Fields()
    {
      fs := FieldsOf(container);
    }

    method Size() returns (n: nat)
      requires Valid()
      ensures n == ValueSize(Fields())
    {
      n := 0;
      for i := 0 to |container|
        invariant n == ValueSize(Fields()[..i])
      {
        assert Fields()[..i + 1][..i] == Fields()[..i];
        n := n + |container[i].field.value|;
      }
      assert Fields()[..|container|] == Fields();
    }
  }

  lemma SameSet(gone: set<nat>, inner: map<string, nat>)
    requires forall id :: id in gone ==> id in inner.Values
    requires forall v :: v in inner ==> inner[v] in gone
    ensures gone == inner.Values
  {
  }

  lemma {:induction false} WithoutAbsent(fs: seq<Field>, name: string, value: string)
    requires !Has(fs, name, value)
    ensures Without(fs, name, value) == fs
  {
    if fs != [] {
      var front, f := fs[..|fs| - 1], fs[|fs| - 1];
      forall i | 0 <= i < |front|
        ensures !(Matches(front[i], name) && front[i].value == value)
      {
        assert front[i] == fs[i];
      }
      WithoutAbsent(front, name, value);
      assert fs == front + [f];
    }
  }

  lemma {:induction false} WithoutNameAbsent(fs: seq<Field>, name: string)
    requires !HasName(fs, name)
    ensures WithoutName(fs, name) == fs
  {
    if fs != [] {
      var front, f := fs[..|fs| - 1], fs[|fs| - 1];
      forall i | 0 <= i < |front|
        ensures !Matches(front[i], name)
      {
        assert front[i] == fs[i];
      }
      WithoutNameAbsent(front, name);
      assert fs == front + [f];
    }
  }

  lemma WithoutHasNot(fs: seq<Field>, name: string, value: string)
    ensures !Has(Without(fs, name, value), name, value)
  {
    var r := Without(fs, name, value);
    forall i | 0 <= i < |r|
      ensures !(Matches(r[i], name) && r[i].value == value)
    {
      WithoutIff(fs, name, value, r[i]);
    }
  }
}
