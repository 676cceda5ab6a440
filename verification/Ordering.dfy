/**
 The order strings are compared in, character by character: that of strings.Compare,
 and of Postgres under the C collation.
 */
module Ordering {
  predicate LexLess(a: string, b: string) {
    if b == "" then false
    else if a == "" then true
    else a[0] < b[0] || (a[0] == b[0] && LexLess(a[1..], b[1..]))
  }

  /** Two strings that agree before i, where the first ends or has the smaller character. */
  ghost predicate DiffersAt(a: string, b: string, i: nat) {
    && i <= |a| && i < |b| && (forall k :: 0 <= k < i ==> a[k] == b[k])
    && (i == |a| || a[i] < b[i])
  }

  lemma {:induction false} DiffersPast(a: string, b: string, i: nat)
    ensures DiffersAt(a, b, i) && i > 0 ==> a != "" && b != "" && a[0] == b[0]
  {
  }

  /** One string is below another exactly when it is a proper prefix, or has the smaller character where they part. */
  lemma {:induction false} LexLessIs(a: string, b: string)
    ensures LexLess(a, b) <==> exists i: nat :: DiffersAt(a, b, i)
  {
    if a != "" && b != "" && a[0] == b[0] {
      LexLessIs(a[1..], b[1..]);
      if i: nat :| DiffersAt(a[1..], b[1..], i) {
        forall k | 0 <= k < i + 1 ensures a[k] == b[k] { assert k > 0 ==> a[1..][k - 1] == b[1..][k - 1]; }
        assert DiffersAt(a, b, i + 1);
      }
      if i: nat :| DiffersAt(a, b, i) {
        assert i > 0;
        forall k | 0 <= k < i - 1 ensures a[1..][k] == b[1..][k] { assert a[k + 1] == b[k + 1]; }
        assert DiffersAt(a[1..], b[1..], i - 1);
      }
    } else if LexLess(a, b) {
      assert DiffersAt(a, b, 0);
    } else {
      forall i: nat ensures DiffersAt(a, b, i) ==> i == 0 { DiffersPast(a, b, i); }
    }
  }

  lemma {:induction false} LexIrreflexive(a: string)
    ensures !LexLess(a, a)
  {
    if a != "" { LexIrreflexive(a[1..]); }
  }

  lemma {:induction false} LexTransitive(a: string, b: string, c: string)
    requires LexLess(a, b) && LexLess(b, c)
    ensures LexLess(a, c)
  {
    if a != "" && a[0] == b[0] == c[0] { LexTransitive(a[1..], b[1..], c[1..]); }
  }

  lemma {:induction false} LexAsymmetric(a: string, b: string)
    ensures !(LexLess(a, b) && LexLess(b, a))
  {
    LexIrreflexive(a);
    if LexLess(a, b) && LexLess(b, a) { LexTransitive(a, b, a); }
  }

  lemma {:induction false} LexTotal(a: string, b: string)
    ensures LexLess(a, b) || LexLess(b, a) || a == b
  {
    if a != "" && b != "" && a[0] == b[0] {
      LexTotal(a[1..], b[1..]);
      assert a == [a[0]] + a[1..] && b == [b[0]] + b[1..];
    }
  }

  // ----- sorted names

  ghost predicate Distinct(names: seq<string>) {
    forall i, j :: 0 <= i < j < |names| ==> names[i] != names[j]
  }

  ghost predicate Ascending(names: seq<string>) {
    forall i, j :: 0 <= i < j < |names| ==> LexLess(names[i], names[j])
  }

  function InsertName(names: seq<string>, name: string): seq<string> {
    if names == [] || LexLess(names[|names| - 1], name) then names + [name]
    else InsertName(names[..|names| - 1], name) + [names[|names| - 1]]
  }

  function SortNames(names: seq<string>): seq<string> {
    if names == [] then [] else InsertName(SortNames(names[..|names| - 1]), names[|names| - 1])
  }

  lemma {:induction false} InsertNameAscends(names: seq<string>, name: string)
    requires Ascending(names) && name !in names
    ensures Ascending(InsertName(names, name))
    ensures forall x :: x in InsertName(names, name) <==> x in names || x == name
  {
    if names == [] {
    } else if LexLess(names[|names| - 1], name) {
      hide LexLess;
      AscendsPast(names, name);
    } else {
      hide LexLess;
      var init, last := names[..|names| - 1], names[|names| - 1];
      assert names == init + [last];
      InsertNameAscends(init, name);
      assert LexLess(name, last) by { LexTotal(last, name); }
      AscendsBelow(InsertName(init, name), init, name, last);
    }
  }

  /** A name above the last goes after it. */
  lemma {:induction false} AscendsPast(names: seq<string>, name: string)
    requires Ascending(names) && names != [] && LexLess(names[|names| - 1], name)
    ensures Ascending(names + [name])
  {
    hide LexLess;
    forall i | 0 <= i < |names| ensures LexLess(names[i], name) {
      if i < |names| - 1 { LexTransitive(names[i], names[|names| - 1], name); }
    }
  }

  /** Names all below another go before it. */
  lemma {:induction false} AscendsBelow(head: seq<string>, init: seq<string>, name: string, last: string)
    requires Ascending(head) && Ascending(init + [last]) && LexLess(name, last)
    requires forall x :: x in head ==> x in init || x == name
    ensures Ascending(head + [last])
  {
    hide LexLess;
    forall i | 0 <= i < |head| ensures LexLess(head[i], last) {
      assert head[i] in head;
      if head[i] in init {
        var j :| 0 <= j < |init| && init[j] == head[i];
        assert (init + [last])[j] == init[j] && (init + [last])[|init|] == last;
      }
    }
  }

  /** Whatever order a map yields its keys in, sorting them leaves one. */
  lemma {:induction false} SortNamesAscends(names: seq<string>)
    requires Distinct(names)
    ensures Ascending(SortNames(names))
    ensures forall x :: x in SortNames(names) <==> x in names
  {
    if names != [] {
      var init, last := names[..|names| - 1], names[|names| - 1];
      assert names == init + [last];
      SortNamesAscends(init);
      InsertNameAscends(SortNames(init), last);
    }
  }

  /** Names none of which is below one before it. */
  ghost predicate InOrder(names: seq<string>) {
    forall i, j :: 0 <= i < j < |names| ==> !LexLess(names[j], names[i])
  }

  lemma {:induction false} DistinctSnoc(names: seq<string>, name: string)
    ensures Distinct(names + [name]) <==> Distinct(names) && name !in names
  {
    var more := names + [name];
    if Distinct(more) {
      forall i, j | 0 <= i < j < |names| ensures names[i] != names[j] { assert more[i] != more[j]; }
      forall i | 0 <= i < |names| ensures names[i] != name { assert more[i] != more[|names|]; }
    }
  }

  lemma {:induction false} InOrderSnoc(names: seq<string>, name: string)
    requires InOrder(names) && (names != [] ==> !LexLess(name, names[|names| - 1]))
    ensures InOrder(names + [name])
  {
    hide LexLess;
    forall i | 0 <= i < |names| ensures !LexLess(name, names[i]) {
      if i < |names| - 1 { NotBelow(name, names[|names| - 1], names[i]); }
    }
  }

  lemma {:induction false} NotBelow(a: string, b: string, c: string)
    requires !LexLess(a, b) && !LexLess(b, c)
    ensures !LexLess(a, c)
  {
    LexTotal(a, b);
    if LexLess(a, c) && LexLess(b, a) { LexTransitive(b, a, c); }
  }

  /** Inserting a name keeps the rest, and it goes after every name not above it. */
  lemma {:induction false} InsertNameKeeps(names: seq<string>, name: string)
    requires InOrder(names)
    ensures InOrder(InsertName(names, name)) && InsertName(names, name) != []
    ensures forall x :: x in InsertName(names, name) <==> x in names || x == name
    ensures Distinct(InsertName(names, name)) <==> Distinct(names) && name !in names
  {
    if names == [] {
    } else if LexLess(names[|names| - 1], name) {
      hide LexLess;
      LexAsymmetric(name, names[|names| - 1]);
      InOrderSnoc(names, name);
      DistinctSnoc(names, name);
    } else {
      hide LexLess;
      var init, last := names[..|names| - 1], names[|names| - 1];
      assert names == init + [last];
      InsertNameKeeps(init, name);
      var head := InsertName(init, name);
      assert head[|head| - 1] in head;
      LastNotAbove(names, name, head[|head| - 1]);
      InOrderSnoc(head, last);
      DistinctSnoc(head, last);
      DistinctSnoc(init, last);
    }
  }

  lemma {:induction false} LastNotAbove(names: seq<string>, name: string, x: string)
    requires InOrder(names) && names != [] && !LexLess(names[|names| - 1], name)
    requires x in names[..|names| - 1] || x == name
    ensures !LexLess(names[|names| - 1], x)
  {
    hide LexLess;
    if x != name {
      var i :| 0 <= i < |names| - 1 && names[i] == x;
    }
  }

  /** Sorting keeps every name, and repeats one exactly when it was repeated. */
  lemma {:induction false} SortNamesKeeps(names: seq<string>)
    ensures InOrder(SortNames(names)) && (forall x :: x in SortNames(names) <==> x in names)
    ensures Distinct(SortNames(names)) <==> Distinct(names)
  {
    if names != [] {
      var init, last := names[..|names| - 1], names[|names| - 1];
      assert names == init + [last];
      SortNamesKeeps(init);
      InsertNameKeeps(SortNames(init), last);
      DistinctSnoc(init, last);
      hide InOrder, Distinct, InsertName;
    }
  }

  /** A set of names in order. */
  ghost function SortedSet(names: set<string>): seq<string> {
    if names == {} then []
    else
      var k :| k in names;
      InsertName(SortedSet(names - {k}), k)
  }

  lemma {:induction false} SortedSetIs(names: set<string>)
    ensures Ascending(SortedSet(names)) && forall x :: x in SortedSet(names) <==> x in names
  {
    if names != {} {
      var k :| k in names && SortedSet(names) == InsertName(SortedSet(names - {k}), k);
      SortedSetIs(names - {k});
      InsertNameAscends(SortedSet(names - {k}), k);
    }
  }

  /** Sorting the names of a set, in whatever order they come. */
  lemma {:induction false} SortsSet(keys: seq<string>, names: set<string>)
    requires Distinct(keys) && forall k :: k in keys <==> k in names
    ensures SortNames(keys) == SortedSet(names)
  {
    SortNamesAscends(keys);
    SortedSetIs(names);
    assert NamesIn(SortNames(keys)) == NamesIn(SortedSet(names));
    AscendingUnique(SortNames(keys), SortedSet(names));
  }

  /** The keys of a map, in whatever order it yields them. */
  method KeysOf(names: set<string>) returns (keys: seq<string>)
    ensures Distinct(keys) && forall k :: k in keys <==> k in names
  {
    keys := [];
    var left := names;
    while left != {}
      invariant left <= names && Distinct(keys)
      invariant forall k :: k in keys <==> k in names && k !in left
      decreases left
    {
      var k :| k in left;
      keys := keys + [k];
      left := left - {k};
    }
  }

  lemma {:induction false} NotYet(names: seq<string>, i: nat)
    requires Ascending(names) && i < |names|
    ensures names[i] !in names[..i]
  {
    if names[i] in names[..i] {
      var j :| 0 <= j < i && names[j] == names[i];
      LexIrreflexive(names[i]);
    }
  }

  /** In ascending names, those before one are those below it. */
  lemma {:induction false} AscendingSplits(names: seq<string>, i: nat)
    requires Ascending(names) && i < |names|
    ensures forall k :: k in names ==> (k in names[..i] <==> LexLess(k, names[i]))
  {
    hide LexLess;
    forall k | k in names ensures k in names[..i] <==> LexLess(k, names[i]) {
      var j :| 0 <= j < |names| && names[j] == k;
      LexAsymmetric(k, names[i]);
      if j < i {
        assert names[..i][j] == k;
      } else {
        NotYet(names, j);
        assert names[..j][..i] == names[..i];
      }
    }
  }

  function NamesIn(names: seq<string>): set<string> {
    set x | x in names
  }

  /** An ascending run of names is determined by which they are. */
  lemma {:induction false} AscendingUnique(a: seq<string>, b: seq<string>)
    requires Ascending(a) && Ascending(b) && NamesIn(a) == NamesIn(b)
    ensures a == b
  {
    SomeName(a);
    SomeName(b);
    if a != [] {
      LastOfBoth(a, b);
      InitMembers(a);
      InitMembers(b);
      AscendingUnique(a[..|a| - 1], b[..|b| - 1]);
      assert a == a[..|a| - 1] + [a[|a| - 1]] && b == b[..|b| - 1] + [b[|b| - 1]];
    }
  }

  lemma {:induction false} SomeName(names: seq<string>)
    ensures NamesIn(names) == {} <==> names == []
  {
    if names != [] { assert names[0] in NamesIn(names); }
  }

  lemma {:induction false} InitMembers(a: seq<string>)
    requires a != [] && Ascending(a)
    ensures NamesIn(a[..|a| - 1]) == NamesIn(a) - {a[|a| - 1]}
  {
    NotYet(a, |a| - 1);
    assert a == a[..|a| - 1] + [a[|a| - 1]];
  }

  lemma {:induction false} LastOfBoth(a: seq<string>, b: seq<string>)
    requires a != [] && b != [] && Ascending(a) && Ascending(b) && NamesIn(a) == NamesIn(b)
    ensures a[|a| - 1] == b[|b| - 1]
  {
    var x, y := a[|a| - 1], b[|b| - 1];
    assert x in NamesIn(a) && y in NamesIn(b);
    var i :| 0 <= i < |b| && b[i] == x;
    var j :| 0 <= j < |a| && a[j] == y;
    if i < |b| - 1 && j < |a| - 1 {
      LexTransitive(x, y, x);
      LexIrreflexive(x);
    }
  }
}
