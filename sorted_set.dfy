/**
 * A Redis sorted set as a value: its entries in the order ZRANGE 0 -1 returns
 * them, ascending by score and, among equal scores, by the member strings'
 * lexicographic order. Each member appears once.
 */
module SortedSet {

  /** One member of a sorted set and its score. */
  datatype Entry = Entry(member: string, score: real)

  /** Lexicographic string order, character by character (for the strings the core handles this matches JavaScript's UTF-16 order); a proper prefix comes first. */
  predicate LexLess(a: string, b: string)
    decreases |a|
  {
    |b| > 0 && (|a| == 0 || a[0] < b[0] || (a[0] == b[0] && LexLess(a[1..], b[1..])))
  }

  lemma {:induction false} LexIrreflexive(a: string)
    ensures !LexLess(a, a)
    decreases |a|
  {
    if |a| > 0 {
      LexIrreflexive(a[1..]);
    }
  }

  lemma {:induction false} LexTransitive(a: string, b: string, c: string)
    requires LexLess(a, b) && LexLess(b, c)
    ensures LexLess(a, c)
    decreases |a|
  {
    if |a| > 0 && a[0] == b[0] && b[0] == c[0] {
      LexTransitive(a[1..], b[1..], c[1..]);
    }
  }

  lemma {:induction false} LexTotal(a: string, b: string)
    requires a != b
    ensures LexLess(a, b) || LexLess(b, a)
    decreases |a|
  {
    if |a| > 0 && |b| > 0 && a[0] == b[0] {
      assert a == [a[0]] + a[1..] && b == [b[0]] + b[1..];
      LexTotal(a[1..], b[1..]);
    }
  }

  /** The order of entries in a sorted set. */
  predicate Before(x: Entry, y: Entry) {
    x.score < y.score || (x.score == y.score && LexLess(x.member, y.member))
  }

  lemma BeforeIrreflexive(x: Entry)
    ensures !Before(x, x)
  {
    LexIrreflexive(x.member);
  }

  lemma BeforeTransitive(x: Entry, y: Entry, z: Entry)
    requires Before(x, y) && Before(y, z)
    ensures Before(x, z)
  {
    if x.score == y.score == z.score {
      LexTransitive(x.member, y.member, z.member);
    }
  }

  lemma BeforeTotal(x: Entry, y: Entry)
    requires x.member != y.member
    ensures Before(x, y) || Before(y, x)
  {
    LexTotal(x.member, y.member);
  }

  /** Entries strictly ascending in the sorted-set order, members pairwise distinct. */
  predicate IsSortedSet(z: seq<Entry>) {
    && (forall i, j :: 0 <= i < j < |z| ==> Before(z[i], z[j]))
    && (forall i, j :: 0 <= i < j < |z| ==> z[i].member != z[j].member)
  }

  /** The member strings in order: what `ZRANGE key 0 -1` returns. */
  function Members(z: seq<Entry>): (ms: seq<string>)
    ensures |ms| == |z|
    ensures forall i :: 0 <= i < |z| ==> ms[i] == z[i].member
  {
    seq(|z|, i requires 0 <= i < |z| => z[i].member)
  }

  /** `z` without the entry of `member`, if it has one. */
  function Remove(z: seq<Entry>, member: string): (r: seq<Entry>)
    ensures forall e :: e in r <==> e in z && e.member != member
    decreases |z|
  {
    if z == [] then []
    else if z[0].member == member then Remove(z[1..], member)
    else [z[0]] + Remove(z[1..], member)
  }

  /** `e` placed at its position in the sorted order of `z`. */
  function Insert(z: seq<Entry>, e: Entry): (r: seq<Entry>)
    ensures forall x :: x in r <==> x == e || x in z
    decreases |z|
  {
    if z == [] || Before(e, z[0]) then [e] + z
    else [z[0]] + Insert(z[1..], e)
  }

  /** `ZADD key score member`: sets the member's score, adding the member if it is new. */
  function Add(z: seq<Entry>, member: string, score: real): (r: seq<Entry>)
    ensures forall e :: e in r <==> e == Entry(member, score) || (e in z && e.member != member)
  {
    Insert(Remove(z, member), Entry(member, score))
  }

  lemma {:induction false} RemoveKeepsSorted(z: seq<Entry>, member: string)
    requires IsSortedSet(z)
    ensures IsSortedSet(Remove(z, member))
    decreases |z|
  {
    if z != [] {
      var tail := Remove(z[1..], member);
      RemoveKeepsSorted(z[1..], member);
      if z[0].member != member {
        var r := [z[0]] + tail;
        forall j | 0 < j < |r|
          ensures Before(r[0], r[j]) && r[0].member != r[j].member
        {
          assert r[j] in tail;
          assert r[j] in z[1..];
          var k :| 0 <= k < |z[1..]| && z[1..][k] == r[j];
          assert z[k + 1] == r[j];
        }
      }
    }
  }

  lemma {:induction false} InsertKeepsSorted(z: seq<Entry>, e: Entry)
    requires IsSortedSet(z)
    requires forall i :: 0 <= i < |z| ==> z[i].member != e.member
    ensures IsSortedSet(Insert(z, e))
    decreases |z|
  {
    if z == [] {
    } else if Before(e, z[0]) {
      forall j | 0 < j < |z| ensures Before(e, z[j]) {
        BeforeTransitive(e, z[0], z[j]);
      }
    } else {
      BeforeTotal(e, z[0]);
      var tail := Insert(z[1..], e);
      InsertKeepsSorted(z[1..], e);
      var r := [z[0]] + tail;
      forall j | 0 < j < |r|
        ensures Before(r[0], r[j]) && r[0].member != r[j].member
      {
        assert r[j] in tail;
        if r[j] != e {
          assert r[j] in z[1..];
          var k :| 0 <= k < |z[1..]| && z[1..][k] == r[j];
          assert z[k + 1] == r[j];
        }
      }
    }
  }

  /**
   * After `ZADD`, the set is still a sorted set; it holds `member` with the new
   * score and every other member with its old score, and nothing else.
   */
  lemma AddSpec(z: seq<Entry>, member: string, score: real)
    requires IsSortedSet(z)
    ensures IsSortedSet(Add(z, member, score))
    ensures forall e :: e in Add(z, member, score) <==> e == Entry(member, score) || (e in z && e.member != member)
    ensures member in Members(Add(z, member, score))
  {
    var removed := Remove(z, member);
    RemoveKeepsSorted(z, member);
    forall i | 0 <= i < |removed| ensures removed[i].member != member {
      assert removed[i] in removed;
    }
    InsertKeepsSorted(removed, Entry(member, score));
    var r := Add(z, member, score);
    assert Entry(member, score) in r;
    var k :| 0 <= k < |r| && r[k] == Entry(member, score);
    assert Members(r)[k] == member;
  }

  lemma EmptyIffNoEntries(z: seq<Entry>)
    ensures z == [] <==> forall e :: e !in z
  {
    if z != [] {
      assert z[0] in z;
    }
  }

  /**
   * A sorted set is determined by its entries: the order ZRANGE returns does
   * not depend on the order in which the members were added.
   */
  lemma {:induction false} SortedSetDeterminedByEntries(a: seq<Entry>, b: seq<Entry>)
    requires IsSortedSet(a) && IsSortedSet(b)
    requires forall e :: e in a <==> e in b
    ensures a == b
    decreases |a|
  {
    EmptyIffNoEntries(a);
    EmptyIffNoEntries(b);
    if a != [] && b != [] {
      assert a[0] in b && b[0] in a;
      var i :| 0 <= i < |b| && b[i] == a[0];
      var j :| 0 <= j < |a| && a[j] == b[0];
      if a[0] != b[0] {
        assert Before(b[0], b[i]);
        assert Before(a[0], a[j]);
        BeforeTransitive(a[0], b[0], a[0]);
        BeforeIrreflexive(a[0]);
      }
      forall e ensures e in a[1..] <==> e in b[1..] {
        if e in a[1..] {
          var k :| 0 <= k < |a[1..]| && a[1..][k] == e;
          assert a[k + 1] == e && Before(a[0], a[k + 1]);
          BeforeIrreflexive(e);
          assert e in b;
        }
        if e in b[1..] {
          var k :| 0 <= k < |b[1..]| && b[1..][k] == e;
          assert b[k + 1] == e && Before(b[0], b[k + 1]);
          BeforeIrreflexive(e);
          assert e in a;
        }
      }
      SortedSetDeterminedByEntries(a[1..], b[1..]);
      assert a == [a[0]] + a[1..] && b == [b[0]] + b[1..];
    }
  }
}
