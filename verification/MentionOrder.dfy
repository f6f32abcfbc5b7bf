/** Choosing leftmost-longest mentions among all the places where something is named. */
module MentionOrder {
  import opened Seqs
  import opened Text

  datatype Mention = Mention(start: nat, length: nat, owner: string)

  function End(m: Mention): nat { m.start + m.length }

  /** Non-empty places within a text of `n` characters, each naming one owner. */
  ghost predicate Proper(all: set<Mention>, n: nat) {
    && (forall m :: m in all ==> m.length >= 1 && End(m) <= n)
    && (forall a, b :: a in all && b in all && a.start == b.start && a.length == b.length ==> a == b)
  }

  // ----- the reference: walk from left to right -----

  ghost predicate IsAt(all: set<Mention>, m: Mention, p: nat, length: nat) {
    m in all && m.start == p && m.length == length
  }

  /** The longest mention starting at `p` that is no longer than `limit`. */
  ghost function LongestAt(all: set<Mention>, p: nat, limit: nat): (r: Option<Mention>)
    ensures r.Some? ==> r.value in all && r.value.start == p && 1 <= r.value.length <= limit
  {
    if limit == 0 then None
    else if exists m :: IsAt(all, m, p, limit) then
      var m :| IsAt(all, m, p, limit);
      Some(m)
    else LongestAt(all, p, limit - 1)
  }

  /** Reading from the left, take the longest mention and go on behind it. */
  ghost function Walk(all: set<Mention>, n: nat, pos: nat): seq<Mention>
    decreases n - pos
  {
    if pos >= n then []
    else
      var here := LongestAt(all, pos, n - pos);
      if here.None? then Walk(all, n, pos + 1) else [here.value] + Walk(all, n, End(here.value))
  }

  // ----- what leftmost-longest means -----

  ghost predicate Longest(all: set<Mention>, m: Mention) {
    m in all && forall x :: x in all && x.start == m.start ==> x.length <= m.length
  }

  ghost predicate Covered(ms: seq<Mention>, p: nat) {
    exists i :: 0 <= i < |ms| && ms[i].start <= p < End(ms[i])
  }

  ghost predicate AllLongest(all: set<Mention>, ms: seq<Mention>, pos: nat) {
    forall m :: m in ms ==> Longest(all, m) && m.start >= pos
  }

  predicate Disjoint(ms: seq<Mention>) {
    forall i, j :: 0 <= i < j < |ms| ==> End(ms[i]) <= ms[j].start
  }

  ghost predicate NoneLeftOut(all: set<Mention>, ms: seq<Mention>, pos: nat) {
    forall m {:trigger Covered(ms, m.start)} :: m in all && m.start >= pos ==> Covered(ms, m.start)
  }

  /** Mentions in text order, disjoint, each the longest at its place, and none left uncovered. */
  ghost predicate LeftmostLongest(all: set<Mention>, ms: seq<Mention>, pos: nat) {
    AllLongest(all, ms, pos) && Disjoint(ms) && NoneLeftOut(all, ms, pos)
  }

  lemma CoveredCons(m: Mention, rest: seq<Mention>, p: nat)
    ensures Covered([m] + rest, p) <==> m.start <= p < End(m) || Covered(rest, p)
  {
    var ms := [m] + rest;
    if m.start <= p < End(m) {
      assert ms[0] == m;
    } else if Covered(rest, p) {
      var i :| 0 <= i < |rest| && rest[i].start <= p < End(rest[i]);
      assert ms[i + 1] == rest[i];
    }
    if Covered(ms, p) && !(m.start <= p < End(m)) {
      var i :| 0 <= i < |ms| && ms[i].start <= p < End(ms[i]);
      assert rest[i - 1] == ms[i];
    }
  }

  lemma DisjointCons(m: Mention, rest: seq<Mention>)
    requires Disjoint(rest) && forall x :: x in rest ==> End(m) <= x.start
    ensures Disjoint([m] + rest)
  {
  }

  lemma DisjointTail(m: Mention, rest: seq<Mention>)
    requires Disjoint([m] + rest)
    ensures Disjoint(rest) && forall x :: x in rest ==> End(m) <= x.start
  {
    var ms := [m] + rest;
    forall i | 0 <= i < |rest| ensures End(m) <= rest[i].start {
      assert End(ms[0]) <= ms[i + 1].start;
    }
    forall i, j | 0 <= i < j < |rest| ensures End(rest[i]) <= rest[j].start {
      assert End(ms[i + 1]) <= ms[j + 1].start;
    }
  }

  lemma LeftmostLongestCons(all: set<Mention>, m: Mention, rest: seq<Mention>)
    requires Longest(all, m) && m.length >= 1 && LeftmostLongest(all, rest, End(m))
    ensures LeftmostLongest(all, [m] + rest, m.start)
  {
    DisjointCons(m, rest);
    forall x | x in all && x.start >= m.start ensures Covered([m] + rest, x.start) {
      CoveredCons(m, rest, x.start);
    }
  }

  lemma {:induction false} LongestAtIsLongest(all: set<Mention>, p: nat, limit: nat)
    ensures forall m :: m in all && m.start == p && 1 <= m.length <= limit ==>
      LongestAt(all, p, limit).Some? && m.length <= LongestAt(all, p, limit).value.length
  {
    if limit > 0 {
      LongestAtIsLongest(all, p, limit - 1);
      forall m | m in all && m.start == p && 1 <= m.length <= limit
        ensures LongestAt(all, p, limit).Some? && m.length <= LongestAt(all, p, limit).value.length
      {
        if m.length == limit {
          assert IsAt(all, m, p, limit);
        }
      }
    }
  }

  lemma LongestAtMeans(all: set<Mention>, n: nat, p: nat)
    requires Proper(all, n) && p <= n
    ensures var here := LongestAt(all, p, n - p);
      if here.None? then forall m :: m in all ==> m.start != p else Longest(all, here.value)
  {
    LongestAtIsLongest(all, p, n - p);
  }

  /** Where nothing starts, a reading may as well start later. */
  lemma NothingHere(all: set<Mention>, ms: seq<Mention>, pos: nat)
    requires forall m :: m in all ==> m.start != pos
    ensures LeftmostLongest(all, ms, pos) <==> LeftmostLongest(all, ms, pos + 1)
  {
    if LeftmostLongest(all, ms, pos + 1) {
      forall m | m in all && m.start >= pos ensures Covered(ms, m.start) {
        assert m.start >= pos + 1;
      }
    }
    if LeftmostLongest(all, ms, pos) {
      forall m | m in all && m.start >= pos + 1 ensures Covered(ms, m.start) {
      }
    }
  }

  lemma NothingLeft(all: set<Mention>, n: nat, ms: seq<Mention>, pos: nat)
    requires Proper(all, n) && pos >= n
    ensures LeftmostLongest(all, [], pos)
    ensures LeftmostLongest(all, ms, pos) ==> |ms| == 0
  {
    if |ms| > 0 {
      assert ms[0] in ms;
    }
  }

  lemma {:induction false} WalkIsLeftmostLongest(all: set<Mention>, n: nat, pos: nat)
    requires Proper(all, n)
    ensures LeftmostLongest(all, Walk(all, n, pos), pos)
    decreases n - pos
  {
    if pos >= n {
      NothingLeft(all, n, [], pos);
    } else {
      LongestAtMeans(all, n, pos);
      var here := LongestAt(all, pos, n - pos);
      if here.None? {
        WalkIsLeftmostLongest(all, n, pos + 1);
        NothingHere(all, Walk(all, n, pos + 1), pos);
      } else {
        WalkIsLeftmostLongest(all, n, End(here.value));
        LeftmostLongestCons(all, here.value, Walk(all, n, End(here.value)));
      }
    }
  }

  lemma LeftmostLongestHead(all: set<Mention>, n: nat, ms: seq<Mention>, pos: nat, m: Mention)
    requires Proper(all, n) && LeftmostLongest(all, ms, pos) && Longest(all, m) && m.start == pos
    ensures ms != [] && ms[0] == m && LeftmostLongest(all, ms[1..], End(m))
  {
    assert Covered(ms, m.start);
    var i :| 0 <= i < |ms| && ms[i].start <= pos < End(ms[i]);
    assert ms[i] in ms && ms[0] in ms && ms[0].length >= 1;
    assert ms[0] == m;
    var rest := ms[1..];
    assert ms == [m] + rest;
    DisjointTail(m, rest);
    forall x | x in all && x.start >= End(m) ensures Covered(rest, x.start) {
      CoveredCons(m, rest, x.start);
    }
  }

  /** Leftmost-longest determines the mentions: the walk is the only such reading. */
  lemma {:induction false} LeftmostLongestIsWalk(all: set<Mention>, n: nat, ms: seq<Mention>, pos: nat)
    requires Proper(all, n) && LeftmostLongest(all, ms, pos)
    ensures ms == Walk(all, n, pos)
    decreases n - pos
  {
    if pos >= n {
      NothingLeft(all, n, ms, pos);
    } else {
      LongestAtMeans(all, n, pos);
      var here := LongestAt(all, pos, n - pos);
      if here.None? {
        NothingHere(all, ms, pos);
        LeftmostLongestIsWalk(all, n, ms, pos + 1);
      } else {
        LeftmostLongestHead(all, n, ms, pos, here.value);
        LeftmostLongestIsWalk(all, n, ms[1..], End(here.value));
        assert ms == [ms[0]] + ms[1..];
      }
    }
  }

  // ----- the algorithm: sort all mentions, then keep those not yet covered -----

  /** The sort key `(start, -length, owner)`. */
  predicate InOrder(a: Mention, b: Mention) {
    a.start < b.start
    || (a.start == b.start && (a.length > b.length || (a.length == b.length && !StringLess(b.owner, a.owner))))
  }

  predicate Sorted(ms: seq<Mention>) {
    forall i, j :: 0 <= i < j < |ms| ==> InOrder(ms[i], ms[j])
  }

  function Greedy(ms: seq<Mention>, occupied: int): seq<Mention> {
    if ms == [] then []
    else if ms[0].start < occupied then Greedy(ms[1..], occupied)
    else [ms[0]] + Greedy(ms[1..], End(ms[0]))
  }

  /** The list holds every mention that starts at `pos` or later, and only mentions. */
  ghost predicate Complete(all: set<Mention>, ms: seq<Mention>, pos: nat) {
    && (forall m :: m in ms ==> m in all)
    && (forall m :: m in all && m.start >= pos ==> m in ms)
  }

  lemma SortedHead(all: set<Mention>, ms: seq<Mention>, pos: nat)
    requires ms != [] && Sorted(ms) && Complete(all, ms, pos) && ms[0].start >= pos
    ensures Longest(all, ms[0])
    ensures forall m :: m in all && m.start >= pos ==> m.start >= ms[0].start
  {
    assert ms[0] in ms;
    forall m | m in all && m.start >= pos
      ensures m.start > ms[0].start || (m.start == ms[0].start && m.length <= ms[0].length)
    {
      var i :| 0 <= i < |ms| && ms[i] == m;
    }
  }

  lemma CompleteTail(all: set<Mention>, ms: seq<Mention>, pos: nat, next: nat)
    requires ms != [] && Complete(all, ms, pos) && pos <= next && ms[0].start < next
    ensures Complete(all, ms[1..], next)
  {
    assert ms == [ms[0]] + ms[1..];
  }

  /** Sorting and skipping covered mentions reads leftmost-longest. */
  lemma {:induction false} GreedyIsLeftmostLongest(all: set<Mention>, n: nat, ms: seq<Mention>, pos: nat)
    requires Proper(all, n) && Sorted(ms) && Complete(all, ms, pos)
    ensures LeftmostLongest(all, Greedy(ms, pos), pos)
    decreases |ms|
  {
    if ms != [] {
      var m := ms[0];
      if m.start < pos {
        CompleteTail(all, ms, pos, pos);
        GreedyIsLeftmostLongest(all, n, ms[1..], pos);
      } else {
        SortedHead(all, ms, pos);
        CompleteTail(all, ms, pos, End(m));
        GreedyIsLeftmostLongest(all, n, ms[1..], End(m));
        LeftmostLongestCons(all, m, Greedy(ms[1..], End(m)));
      }
    }
  }

  lemma GreedyIsWalk(all: set<Mention>, n: nat, ms: seq<Mention>)
    requires Proper(all, n) && Sorted(ms) && Complete(all, ms, 0)
    ensures Greedy(ms, 0) == Walk(all, n, 0)
  {
    GreedyIsLeftmostLongest(all, n, ms, 0);
    LeftmostLongestIsWalk(all, n, Greedy(ms, 0), 0);
  }

  // ----- sorting -----

  function InsertMention(ms: seq<Mention>, m: Mention): (r: seq<Mention>)
    requires Sorted(ms)
    ensures Sorted(r)
    ensures forall x :: x in r <==> x == m || x in ms
  {
    if ms == [] || InOrder(m, ms[0]) then
      InsertFirst(ms, m);
      [m] + ms
    else
      var rest := InsertMention(ms[1..], m);
      StringOrder(m.owner, ms[0].owner, "");
      assert ms == [ms[0]] + ms[1..];
      assert InOrder(ms[0], m);
      assert forall x :: x in ms[1..] ==> InOrder(ms[0], x);
      [ms[0]] + rest
  }

  lemma InsertFirst(ms: seq<Mention>, m: Mention)
    requires Sorted(ms) && (ms == [] || InOrder(m, ms[0]))
    ensures Sorted([m] + ms)
  {
    forall j | 0 <= j < |ms| ensures InOrder(m, ms[j]) {
      StringOrder(m.owner, ms[0].owner, ms[j].owner);
    }
  }

  function SortMentions(ms: seq<Mention>): (r: seq<Mention>)
    ensures Sorted(r)
    ensures forall x :: x in r <==> x in ms
  {
    if ms == [] then []
    else
      assert ms == [ms[0]] + ms[1..];
      InsertMention(SortMentions(ms[1..]), ms[0])
  }

  /** The owners in order, each at its first place. */
  function FirstOwners(ms: seq<Mention>): (r: seq<string>)
    ensures Distinct(r)
    ensures forall x :: x in r <==> exists i :: 0 <= i < |ms| && ms[i].owner == x
  {
    if ms == [] then []
    else
      var before := FirstOwners(ms[..|ms| - 1]);
      var last := ms[|ms| - 1];
      if last.owner in before then before else before + [last.owner]
  }

  /** The loop over the sorted mentions. */
  method KeepUncovered(ms: seq<Mention>) returns (ordered: seq<string>)
    ensures ordered == FirstOwners(Greedy(ms, 0))
  {
    ordered := [];
    var occupied := -1;
    ghost var kept: seq<Mention> := [];
    for i := 0 to |ms|
      invariant ordered == FirstOwners(kept)
      invariant kept + Greedy(ms[i..], occupied) == Greedy(ms, -1)
    {
      assert ms[i..][1..] == ms[i + 1..];
      var m := ms[i];
      if m.start < occupied {
        continue;
      }
      occupied := m.start + m.length;
      assert kept + ([m] + Greedy(ms[i + 1..], occupied)) == kept + [m] + Greedy(ms[i + 1..], occupied);
      kept := kept + [m];
      assert kept[..|kept| - 1] + [m] == kept;
      if m.owner !in ordered {
        ordered := ordered + [m.owner];
      }
    }
    assert kept + [] == kept;
    GreedyStart(ms);
  }

  lemma GreedyStart(ms: seq<Mention>)
    ensures Greedy(ms, -1) == Greedy(ms, 0)
  {
  }
}
