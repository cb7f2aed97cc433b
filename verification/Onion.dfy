/** The book of onion addresses (src/addr.rs, `OnionBook`). */
module Onion {
  import opened Prelude

  const MAX_ONIONS: nat := 1_000
  const ONION_SHARE_PER_SOURCE: nat := MAX_ONIONS / 8
  const ONION_SOURCE_LOCAL: nat := 0
  const ONION_ANSWERED_FAILURES: nat := 3
  const ONION_UNTRIED_EVERY: nat := 4
  const MAX_ONION_FAILURES: nat := 5
  const ONION_FORGET_AFTER: nat := 3 * 24 * 3600
  const FUTURE_TOLERANCE: nat := 600

  /** A name; only its order matters. */
  type Name = nat

  datatype Entry = Entry(name: Name, port: nat, lastSeen: nat, failures: nat, answered: bool, lastSuccess: nat,
                         source: nat)

  predicate Same(e: Entry, name: Name, port: nat) { e.name == name && e.port == port }

  /** Each name and port once. */
  ghost predicate Distinct(entries: seq<Entry>) {
    forall i, j | 0 <= i < j < |entries| :: !Same(entries[i], entries[j].name, entries[j].port)
  }

  /** Unanswered names of a source. */
  function Unanswered(entries: seq<Entry>, source: nat): nat {
    if entries == [] then 0
    else
      Unanswered(Front(entries), source)
      + (if !Last(entries).answered && Last(entries).source == source then 1 else 0)
  }

  /** The last entry takes the place of the one removed. */
  function SwapRemove(entries: seq<Entry>, at: nat): seq<Entry>
    requires at < |entries|
  {
    if at == |entries| - 1 then Front(entries) else Front(entries)[at := Last(entries)]
  }

  lemma {:induction false} UnansweredUpdate(entries: seq<Entry>, i: nat, e: Entry, source: nat)
    requires i < |entries|
    ensures Unanswered(entries[i := e], source) + Weight(entries[i], source)
            == Unanswered(entries, source) + Weight(e, source)
    decreases |entries|
  {
    if i == |entries| - 1 {
      assert Front(entries[i := e]) == Front(entries);
    } else {
      UnansweredUpdate(Front(entries), i, e, source);
      assert Front(entries[i := e]) == Front(entries)[i := e];
    }
  }

  function Weight(e: Entry, source: nat): nat { if !e.answered && e.source == source then 1 else 0 }

  lemma UnansweredRemove(entries: seq<Entry>, at: nat, source: nat)
    requires at < |entries|
    ensures Unanswered(SwapRemove(entries, at), source) + Weight(entries[at], source) == Unanswered(entries, source)
  {
    if at < |entries| - 1 { UnansweredUpdate(Front(entries), at, Last(entries), source); }
  }

  lemma UnansweredPush(entries: seq<Entry>, e: Entry, source: nat)
    ensures Unanswered(entries + [e], source) == Unanswered(entries, source) + Weight(e, source)
  {
    assert Front(entries + [e]) == entries;
  }

  lemma {:induction false} SomeUnanswered(entries: seq<Entry>, source: nat)
    ensures Unanswered(entries, source) > 0 ==> exists i :: 0 <= i < |entries| && Weight(entries[i], source) == 1
    decreases |entries|
  {
    if entries != [] {
      SomeUnanswered(Front(entries), source);
      if Weight(Last(entries), source) == 1 { assert Weight(entries[|entries| - 1], source) == 1; }
      else if Unanswered(Front(entries), source) > 0 {
        var i :| 0 <= i < |entries| - 1 && Weight(Front(entries)[i], source) == 1;
        assert Weight(entries[i], source) == 1;
      }
    }
  }

  lemma RemoveDistinct(entries: seq<Entry>, at: nat)
    requires at < |entries| && Distinct(entries)
    ensures Distinct(SwapRemove(entries, at))
    ensures forall e | e in SwapRemove(entries, at) :: e in entries
    ensures forall i | 0 <= i < |entries| && i != at :: entries[i] in SwapRemove(entries, at)
  {
    var left := SwapRemove(entries, at);
    forall i | 0 <= i < |left|
      ensures left[i] in entries
    {
      assert left[i] == if i == at then Last(entries) else entries[i];
    }
    forall i | 0 <= i < |entries| && i != at
      ensures entries[i] in left
    {
      if i == |entries| - 1 { assert left[at] == entries[i]; } else { assert left[i] == entries[i]; }
    }
  }

  ghost function Demoted(demotions: map<nat, nat>, source: nat): nat {
    if source in demotions then demotions[source] else 0
  }

  /** No source past its share, except for names of its own that answered once
      and failed since. */
  ghost predicate SharesOk(entries: seq<Entry>, demotions: map<nat, nat>) {
    forall source | source != ONION_SOURCE_LOCAL ::
      Unanswered(entries, source) <= ONION_SHARE_PER_SOURCE + Demoted(demotions, source)
  }

  lemma SharesRemove(entries: seq<Entry>, demotions: map<nat, nat>, at: nat)
    requires SharesOk(entries, demotions) && at < |entries|
    ensures SharesOk(SwapRemove(entries, at), demotions)
  {
    forall s | s != ONION_SOURCE_LOCAL
      ensures Unanswered(SwapRemove(entries, at), s) <= ONION_SHARE_PER_SOURCE + Demoted(demotions, s)
    {
      UnansweredRemove(entries, at, s);
    }
  }

  lemma SharesPush(entries: seq<Entry>, demotions: map<nat, nat>, e: Entry)
    requires SharesOk(entries, demotions)
    requires || e.source == ONION_SOURCE_LOCAL
             || Unanswered(entries, e.source) < ONION_SHARE_PER_SOURCE + Demoted(demotions, e.source)
    ensures SharesOk(entries + [e], demotions)
  {
    forall s | s != ONION_SOURCE_LOCAL
      ensures Unanswered(entries + [e], s) <= ONION_SHARE_PER_SOURCE + Demoted(demotions, s)
    {
      UnansweredPush(entries, e, s);
    }
  }

  /** One entry changed; its source may be charged one demotion for it. */
  lemma SharesUpdate(entries: seq<Entry>, demotions: map<nat, nat>, at: nat, e: Entry, after: map<nat, nat>)
    requires SharesOk(entries, demotions) && at < |entries| && e.source == entries[at].source
    requires forall s :: Demoted(demotions, s) <= Demoted(after, s)
    requires !e.answered && entries[at].answered ==> Demoted(after, e.source) == Demoted(demotions, e.source) + 1
    ensures SharesOk(entries[at := e], after)
  {
    forall s | s != ONION_SOURCE_LOCAL
      ensures Unanswered(entries[at := e], s) <= ONION_SHARE_PER_SOURCE + Demoted(after, s)
    {
      UnansweredUpdate(entries, at, e, s);
    }
  }

  lemma UpdateDistinct(entries: seq<Entry>, at: nat, e: Entry)
    requires at < |entries| && Distinct(entries) && Same(e, entries[at].name, entries[at].port)
    ensures Distinct(entries[at := e])
    ensures forall x | x in entries && !Same(x, e.name, e.port) :: x in entries[at := e]
  {
    var newer := entries[at := e];
    forall x | x in entries && !Same(x, e.name, e.port)
      ensures x in newer
    {
      var i :| 0 <= i < |entries| && entries[i] == x;
      assert newer[i] == x;
    }
  }

  lemma PushDistinct(entries: seq<Entry>, e: Entry)
    requires Distinct(entries) && forall i | 0 <= i < |entries| :: !Same(entries[i], e.name, e.port)
    ensures Distinct(entries + [e])
    ensures forall x | x in entries :: x in entries + [e]
  {
  }

  class OnionBook {
    var entries: seq<Entry>
    /** How often a name of each source stopped counting as answered. */
    ghost var demotions: map<nat, nat>

    ghost predicate Valid()
      reads this
    {
      |entries| <= MAX_ONIONS && Distinct(entries) && SharesOk(entries, demotions)
    }

    constructor ()
      ensures Valid() && entries == [] && demotions == map[]
    {
      entries, demotions := [], map[];
    }

    method Find(name: Name, port: nat) returns (at: Option<nat>)
      ensures at.Some? ==> at.value < |entries| && Same(entries[at.value], name, port)
      ensures at.None? ==> forall i | 0 <= i < |entries| :: !Same(entries[i], name, port)
    {
      for i := 0 to |entries|
        invariant forall j | 0 <= j < i :: !Same(entries[j], name, port)
      {
        if entries[i].name == name && entries[i].port == port { return Some(i); }
      }
      return None;
    }

    /** The first of the stalest unanswered names, of one source or of any. */
    method Stalest(source: Option<nat>) returns (at: Option<nat>)
      ensures at.Some? ==> IsStalest(entries, source, at.value)
      ensures at.None? ==> forall i | 0 <= i < |entries| :: !Candidate(entries[i], source)
    {
      at := None;
      for i := 0 to |entries|
        invariant at.Some? ==> at.value < i && IsStalest(entries[..i], source, at.value)
        invariant at.None? ==> forall j | 0 <= j < i :: !Candidate(entries[j], source)
      {
        if Candidate(entries[i], source) && (at.None? || entries[i].lastSeen < entries[at.value].lastSeen) {
          at := Some(i);
        }
      }
      assert entries[..|entries|] == entries;
    }

    method CountUnanswered(source: nat) returns (n: nat)
      ensures n == Unanswered(entries, source)
    {
      n := 0;
      for i := 0 to |entries|
        invariant n == Unanswered(entries[..i], source)
      {
        assert Front(entries[..i + 1]) == entries[..i];
        if !entries[i].answered && entries[i].source == source { n := n + 1; }
      }
      assert entries[..|entries|] == entries;
    }

    /** A name arrives from `source`.  A known one is dated
        again.  A new one enters at the back; the stalest unanswered name makes
        room, of this source if it has its share, of any if the book is full. */
    method AddFrom(name: Name, port: nat, lastSeen: nat, now: nat, source: nat)
      returns (added: bool, ghost gone: Option<nat>)
      requires Valid()
      modifies this`entries
      ensures Valid()
      ensures forall i | 0 <= i < |old(entries)| && Same(old(entries)[i], name, port) ::
                var seen := Max(old(entries)[i].lastSeen, Min(lastSeen, now + FUTURE_TOLERANCE));
                !added && entries == old(entries)[i := old(entries)[i].(lastSeen := seen)]
      ensures Missing(old(entries), name, port) ==>
                (added <==> || AtShare(old(entries), source) || |old(entries)| < MAX_ONIONS
                            || exists i :: 0 <= i < |old(entries)| && !old(entries)[i].answered)
      ensures Missing(old(entries), name, port) && !added ==> entries == old(entries)
      ensures added ==> (gone.Some? <==> AtShare(old(entries), source) || |old(entries)| >= MAX_ONIONS)
      ensures added && gone.Some? ==>
                IsStalest(old(entries), if AtShare(old(entries), source) then Some(source) else None, gone.value)
      ensures added ==> entries == (if gone.Some? then SwapRemove(old(entries), gone.value) else old(entries))
                                   + [Entry(name, port, Min(lastSeen, now + FUTURE_TOLERANCE), 0, false, 0, source)]
      ensures forall e | e in old(entries) && e.answered && !Same(e, name, port) :: e in entries
    {
      hide Distinct, SharesOk, Unanswered, SwapRemove;
      gone := None;
      var seen := Min(lastSeen, now + FUTURE_TOLERANCE);
      var at := Find(name, port);
      if at.Some? {
        var e := entries[at.value].(lastSeen := Max(entries[at.value].lastSeen, seen));
        OneOf(entries, at.value, name, port);
        UpdateDistinct(entries, at.value, e);
        SharesUpdate(entries, demotions, at.value, e, demotions);
        entries := entries[at.value := e];
        return false, gone;
      }
      var count := CountUnanswered(source);
      if source != ONION_SOURCE_LOCAL && count >= ONION_SHARE_PER_SOURCE {
        var oldest := Stalest(Some(source));
        SomeUnanswered(entries, source);
        ShareOf(entries, demotions, source);
        UnansweredRemove(entries, oldest.value, source);
        MakeRoom(entries, oldest.value, name, port);
        SharesRemove(entries, demotions, oldest.value);
        gone := oldest;
        entries := SwapRemove(entries, oldest.value);
      } else if |entries| >= MAX_ONIONS {
        var oldest := Stalest(None);
        if oldest.None? { return false, gone; }
        UnansweredRemove(entries, oldest.value, source);
        MakeRoom(entries, oldest.value, name, port);
        SharesRemove(entries, demotions, oldest.value);
        gone := oldest;
        entries := SwapRemove(entries, oldest.value);
      }
      var e := Entry(name, port, seen, 0, false, 0, source);
      PushDistinct(entries, e);
      SharesPush(entries, demotions, e);
      entries := entries + [e];
      return true, gone;
    }

    /** One entry becomes `e`, the same name with the same source and at least as
        answered. */
    method Replace(at: nat, e: Entry)
      requires Valid() && at < |entries| && Same(e, entries[at].name, entries[at].port)
      requires e.source == entries[at].source
      requires entries[at].answered ==> e.answered
      modifies this`entries
      ensures Valid() && entries == old(entries)[at := e]
    {
      hide SharesOk, Distinct;
      UpdateDistinct(entries, at, e);
      SharesUpdate(entries, demotions, at, e, demotions);
      entries := entries[at := e];
    }

    /** The name has answered, just now, and its failures are forgiven. */
    method NoteHandshake(name: Name, port: nat, now: nat)
      requires Valid()
      modifies this`entries
      ensures Valid()
      ensures Missing(old(entries), name, port) ==> entries == old(entries)
      ensures forall i | 0 <= i < |old(entries)| && Same(old(entries)[i], name, port) ::
                entries == old(entries)[i := old(entries)[i].(failures := 0, answered := true, lastSuccess := now)]
    {
      hide SharesOk, Distinct;
      var at := Find(name, port);
      if at.Some? {
        OneOf(entries, at.value, name, port);
        Replace(at.value, entries[at.value].(failures := 0, answered := true, lastSuccess := now));
      }
    }

    /** A call to this name went through: seen now, its failures forgiven. */
    method NoteSuccess(name: Name, port: nat, now: nat)
      requires Valid()
      modifies this`entries
      ensures Valid()
      ensures Missing(old(entries), name, port) ==> entries == old(entries)
      ensures forall i | 0 <= i < |old(entries)| && Same(old(entries)[i], name, port) ::
                entries == old(entries)[i := old(entries)[i].(failures := 0, lastSeen := now)]
    {
      hide SharesOk, Distinct;
      var at := Find(name, port);
      if at.Some? {
        OneOf(entries, at.value, name, port);
        Replace(at.value, entries[at.value].(failures := 0, lastSeen := now));
      }
    }

    /** The node's own file says that this name had answered. */
    method MarkAnswered(name: Name, port: nat, lastSuccess: nat)
      requires Valid()
      modifies this`entries
      ensures Valid()
      ensures Missing(old(entries), name, port) ==> entries == old(entries)
      ensures forall i | 0 <= i < |old(entries)| && Same(old(entries)[i], name, port) ::
                entries == old(entries)[i := old(entries)[i].(answered := true, lastSuccess := lastSuccess)]
    {
      hide SharesOk, Distinct;
      var at := Find(name, port);
      if at.Some? {
        OneOf(entries, at.value, name, port);
        Replace(at.value, entries[at.value].(answered := true, lastSuccess := lastSuccess));
      }
    }

    /** A call to this name failed: three in a row and it counts as untried,
        five and long unseen and it is forgotten.  Nothing else changes. */
    method NoteFailure(name: Name, port: nat, now: nat)
      requires Valid()
      modifies this
      ensures Valid()
      ensures Missing(old(entries), name, port) ==> entries == old(entries) && demotions == old(demotions)
      ensures forall i | 0 <= i < |old(entries)| && Same(old(entries)[i], name, port) ::
                var e := Failed(old(entries)[i]);
                && entries == (if ToForget(e, now) then SwapRemove(old(entries)[i := e], i) else old(entries)[i := e])
                && demotions == (if old(entries)[i].answered && !e.answered then Charged(old(demotions), e.source)
                                 else old(demotions))
      ensures forall e | e in old(entries) && !Same(e, name, port) :: e in entries
      ensures forall e | e in entries && !Same(e, name, port) :: e in old(entries)
    {
      hide SharesOk, Distinct, SwapRemove;
      var at := Find(name, port);
      if at.Some? {
        OneOf(entries, at.value, name, port);
        var was := entries[at.value];
        var failures := was.failures + 1;
        var e := was.(failures := failures, answered := was.answered && failures < ONION_ANSWERED_FAILURES);
        ghost var after := if was.answered && !e.answered then Charged(demotions, was.source) else demotions;
        UpdateDistinct(entries, at.value, e);
        SharesUpdate(entries, demotions, at.value, e, after);
        OnlySame(entries, at.value, e);
        entries := entries[at.value := e];
        demotions := after;
        if failures >= MAX_ONION_FAILURES && SatSub(now, e.lastSeen) > ONION_FORGET_AFTER {
          RemoveDistinct(entries, at.value);
          SharesRemove(entries, demotions, at.value);
          Forgotten(entries, at.value);
          entries := SwapRemove(entries, at.value);
        }
      }
    }

    /** Everyone in the book, once, in the order of the calls.  Every
        fourth call is for an untried name while any is left, the others for
        names that answered while any is left.  Of those that answered the latest
        success comes first; of the untried, in each turn and of each source, the
        fewest failures and then the freshest; names decide the rest. */
    method ToTry() returns (out: seq<Entry>)
      ensures multiset(out) == multiset(entries)
      ensures FairOrder(out)
      ensures Chosen(out, true) == Entries(Sorted(AnsweredKeys(Chosen(entries, true))))
      ensures Chosen(out, false) == RoundRobin(Entries(Sorted(UntriedKeys(Chosen(entries, false)))))
      ensures LatestFirst(Chosen(out, true))
      ensures InTurns(Chosen(out, false)) && BestFirst(Chosen(out, false))
    {
      hide Sorted, FairOrder, Chosen, AnsweredKeys, UntriedKeys, RankKeys, Entries, Merged, InTurns, LatestFirst,
           BestFirst;
      var some := Choose(entries, true);
      var none := Choose(entries, false);
      var answered := Entries(Sorted(AnsweredKeys(some)));
      var ranked := Rank(Entries(Sorted(UntriedKeys(none))));
      var untried := Entries(Sorted(ranked));
      ChosenKinds(entries);
      ChosenSplit(entries);
      OrdersKeep(some, none, answered, untried);
      out := Merge(answered, untried);
      MergedKeeps(answered, untried, 0);
      MergedChosen(answered, untried, 0);
      Fairly(answered, untried);
      RoundRobinFair(Entries(Sorted(UntriedKeys(none))));
      AnsweredLatest(some);
      UntriedBest(none);
    }
  }

  ghost function Charged(demotions: map<nat, nat>, source: nat): map<nat, nat> {
    demotions[source := Demoted(demotions, source) + 1]
  }

  lemma ShareOf(entries: seq<Entry>, demotions: map<nat, nat>, source: nat)
    requires SharesOk(entries, demotions) && source != ONION_SOURCE_LOCAL
    ensures Unanswered(entries, source) <= ONION_SHARE_PER_SOURCE + Demoted(demotions, source)
  {
  }

  lemma OnlySame(entries: seq<Entry>, at: nat, e: Entry)
    requires at < |entries| && Distinct(entries) && Same(e, entries[at].name, entries[at].port)
    ensures forall x | x in entries[at := e] && Same(x, e.name, e.port) :: x == e
    ensures forall x | x in entries[at := e] && !Same(x, e.name, e.port) :: x in entries
  {
    var newer := entries[at := e];
    forall x | x in newer
      ensures if Same(x, e.name, e.port) then x == e else x in entries
    {
      var i :| 0 <= i < |newer| && newer[i] == x;
      if i != at { assert entries[i] == x; }
    }
  }

  /** Forgetting one leaves the others. */
  lemma Forgotten(entries: seq<Entry>, at: nat)
    requires at < |entries| && Distinct(entries)
    ensures |SwapRemove(entries, at)| == |entries| - 1
    ensures forall x | x in entries && !Same(x, entries[at].name, entries[at].port) :: x in SwapRemove(entries, at)
  {
    RemoveDistinct(entries, at);
    forall x | x in entries && !Same(x, entries[at].name, entries[at].port)
      ensures x in SwapRemove(entries, at)
    {
      var i :| 0 <= i < |entries| && entries[i] == x;
    }
  }

  /** This name is not in the book. */
  ghost predicate Missing(entries: seq<Entry>, name: Name, port: nat) {
    forall i | 0 <= i < |entries| :: !Same(entries[i], name, port)
  }

  /** Another node has written its share of names nobody has seen answer. */
  ghost predicate AtShare(entries: seq<Entry>, source: nat) {
    source != ONION_SOURCE_LOCAL && Unanswered(entries, source) >= ONION_SHARE_PER_SOURCE
  }

  /** The first of the least recently seen candidates. */
  ghost predicate IsStalest(entries: seq<Entry>, source: Option<nat>, at: nat) {
    && at < |entries| && Candidate(entries[at], source)
    && (forall i | 0 <= i < |entries| && Candidate(entries[i], source) :: entries[at].lastSeen <= entries[i].lastSeen)
    && (forall i | 0 <= i < at && Candidate(entries[i], source) :: entries[at].lastSeen < entries[i].lastSeen)
  }

  /** One more failure; after three an answer counts no more. */
  function Failed(e: Entry): Entry {
    e.(failures := e.failures + 1, answered := e.answered && e.failures + 1 < ONION_ANSWERED_FAILURES)
  }

  predicate ToForget(e: Entry, now: nat) {
    e.failures >= MAX_ONION_FAILURES && SatSub(now, e.lastSeen) > ONION_FORGET_AFTER
  }

  /** A name is in the book once. */
  lemma OneOf(entries: seq<Entry>, at: nat, name: Name, port: nat)
    requires Distinct(entries) && at < |entries| && Same(entries[at], name, port)
    ensures forall i | 0 <= i < |entries| && Same(entries[i], name, port) :: i == at
  {
  }

  predicate Candidate(e: Entry, source: Option<nat>) { !e.answered && (source.None? || e.source == source.value) }

  lemma MakeRoom(entries: seq<Entry>, gone: nat, name: Name, port: nat)
    requires gone < |entries| && Distinct(entries) && !entries[gone].answered
    requires forall i | 0 <= i < |entries| :: !Same(entries[i], name, port)
    ensures Distinct(SwapRemove(entries, gone)) && |SwapRemove(entries, gone)| == |entries| - 1
    ensures forall e | e in entries && e.answered :: e in SwapRemove(entries, gone)
    ensures forall i | 0 <= i < |SwapRemove(entries, gone)| :: !Same(SwapRemove(entries, gone)[i], name, port)
  {
    RemoveDistinct(entries, gone);
    forall e | e in entries && e.answered
      ensures e in SwapRemove(entries, gone)
    {
      var i :| 0 <= i < |entries| && entries[i] == e;
    }
  }

  // ------------------------------------------------------------------
  // Orders
  // ------------------------------------------------------------------

  /** An entry with what it is sorted by. */
  datatype Keyed = Keyed(a: int, b: int, c: int, entry: Entry)

  predicate Before(x: Keyed, y: Keyed) {
    x.a < y.a || (x.a == y.a && (x.b < y.b || (x.b == y.b && x.c < y.c)))
  }

  function Insert(s: seq<Keyed>, x: Keyed): (t: seq<Keyed>)
    ensures multiset(t) == multiset(s) + multiset{x}
  {
    if s == [] || !Before(x, Last(s)) then s + [x]
    else
      assert s == Front(s) + [Last(s)];
      Insert(Front(s), x) + [Last(s)]
  }

  /** A stable sort. */
  function Sorted(s: seq<Keyed>): (t: seq<Keyed>)
    ensures multiset(t) == multiset(s)
  {
    if s == [] then []
    else
      assert s == Front(s) + [Last(s)];
      Insert(Sorted(Front(s)), Last(s))
  }

  ghost predicate InOrder(s: seq<Keyed>) {
    forall i, j | 0 <= i < j < |s| :: !Before(s[j], s[i])
  }

  lemma {:induction false} InsertInOrder(s: seq<Keyed>, x: Keyed)
    requires InOrder(s)
    ensures InOrder(Insert(s, x))
    ensures forall y | (forall i | 0 <= i < |s| :: !Before(y, s[i])) && !Before(y, x) ::
              forall i | 0 <= i < |Insert(s, x)| :: !Before(y, Insert(s, x)[i])
    decreases |s|
  {
    if s == [] {
    } else if !Before(x, Last(s)) {
      forall i | 0 <= i < |s|
        ensures !Before(x, s[i])
      {
        assert !Before(Last(s), s[i]);
      }
    } else {
      InsertInOrder(Front(s), x);
      var t := Insert(Front(s), x);
      assert forall i | 0 <= i < |Front(s)| :: !Before(Last(s), Front(s)[i]);
      assert !Before(Last(s), x);
    }
  }

  /** Sorting sorts. */
  lemma {:induction false} SortedInOrder(s: seq<Keyed>)
    ensures InOrder(Sorted(s))
    decreases |s|
  {
    if s != [] {
      SortedInOrder(Front(s));
      InsertInOrder(Sorted(Front(s)), Last(s));
    }
  }

  function Entries(s: seq<Keyed>): (es: seq<Entry>)
    ensures |es| == |s| && forall i | 0 <= i < |s| :: es[i] == s[i].entry
  {
    seq(|s|, i requires 0 <= i < |s| => s[i].entry)
  }

  /** The entries that answered, or those that did not. */
  function Chosen(s: seq<Entry>, answered: bool): seq<Entry> {
    if s == [] then [] else Chosen(Front(s), answered) + if Last(s).answered == answered then [Last(s)] else []
  }

  /** Most recent success first, then by name. */
  function AnsweredKeys(s: seq<Entry>): (t: seq<Keyed>)
    ensures |t| == |s| && Entries(t) == s
  {
    seq(|s|, i requires 0 <= i < |s| => Keyed(-(s[i].lastSuccess as int), s[i].name, 0, s[i]))
  }

  /** Fewest failures first, then the freshest, then by name. */
  function UntriedKeys(s: seq<Entry>): (t: seq<Keyed>)
    ensures |t| == |s| && Entries(t) == s
  {
    seq(|s|, i requires 0 <= i < |s| => Keyed(s[i].failures, -(s[i].lastSeen as int), s[i].name, s[i]))
  }

  /** How many of the first entries have this source. */
  function OfSource(s: seq<Entry>, source: nat): nat {
    if s == [] then 0 else OfSource(Front(s), source) + if Last(s).source == source then 1 else 0
  }

  /** The first of each source, then the second... */
  function RankKeys(s: seq<Entry>): (t: seq<Keyed>)
    ensures |t| == |s| && Entries(t) == s
  {
    seq(|s|, i requires 0 <= i < |s| => Keyed(OfSource(s[..i + 1], s[i].source), i, 0, s[i]))
  }

  function RoundRobin(s: seq<Entry>): seq<Entry> { Entries(Sorted(RankKeys(s))) }

  method Rank(s: seq<Entry>) returns (t: seq<Keyed>)
    ensures t == RankKeys(s)
  {
    var rank: map<nat, nat> := map[];
    t := [];
    for i := 0 to |s|
      invariant |t| == i && forall k | 0 <= k < i :: t[k] == Keyed(OfSource(s[..k + 1], s[k].source), k, 0, s[k])
      invariant forall source :: (if source in rank then rank[source] else 0) == OfSource(s[..i], source)
    {
      var e := s[i];
      assert Front(s[..i + 1]) == s[..i];
      var r := (if e.source in rank then rank[e.source] else 0) + 1;
      rank := rank[e.source := r];
      t := t + [Keyed(r, i, 0, e)];
    }
  }

  /** One place in four to the untried. */
  function Merged(a: seq<Entry>, u: seq<Entry>, n: nat): seq<Entry>
    decreases |a| + |u|
  {
    if a == [] && u == [] then []
    else if UntriedNext(a, u, n) then [u[0]] + Merged(a, u[1..], n + 1)
    else [a[0]] + Merged(a[1..], u, n + 1)
  }

  /** Place `n` goes to an untried name: it is a fourth one, or none else is left. */
  predicate UntriedNext(a: seq<Entry>, u: seq<Entry>, n: nat): (next: bool)
    requires a != [] || u != []
    ensures if next then u != [] else a != []
  {
    (n % ONION_UNTRIED_EVERY == ONION_UNTRIED_EVERY - 1 && u != []) || a == []
  }

  ghost predicate AllAre(s: seq<Entry>, answered: bool) {
    forall i | 0 <= i < |s| :: s[i].answered == answered
  }

  /** An answered name in a fourth place means no untried one is left, and an
      untried name elsewhere that no answered one is. */
  ghost predicate FairFrom(out: seq<Entry>, n: nat) {
    forall i, j | 0 <= i < j < |out| ::
      out[i].answered == ((n + i) % ONION_UNTRIED_EVERY == ONION_UNTRIED_EVERY - 1) ==>
        out[j].answered == out[i].answered
  }

  ghost predicate FairOrder(out: seq<Entry>) { FairFrom(out, 0) }

  method Choose(s: seq<Entry>, answered: bool) returns (t: seq<Entry>)
    ensures t == Chosen(s, answered)
  {
    t := [];
    for i := 0 to |s|
      invariant t == Chosen(s[..i], answered)
    {
      assert Front(s[..i + 1]) == s[..i];
      if s[i].answered == answered { t := t + [s[i]]; }
    }
    assert s[..|s|] == s;
  }

  method Merge(answered: seq<Entry>, untried: seq<Entry>) returns (out: seq<Entry>)
    ensures out == Merged(answered, untried, 0)
  {
    hide UntriedNext;
    var a, u := answered, untried;
    out := [];
    while a != [] || u != []
      invariant out + Merged(a, u, |out|) == Merged(answered, untried, 0)
      decreases |a| + |u|
    {
      if UntriedNext(a, u, |out|) {
        Shifted(out, u[0], Merged(a, u[1..], |out| + 1));
        out, u := out + [u[0]], u[1..];
      } else {
        Shifted(out, a[0], Merged(a[1..], u, |out| + 1));
        out, a := out + [a[0]], a[1..];
      }
    }
  }

  lemma Shifted(out: seq<Entry>, x: Entry, rest: seq<Entry>)
    ensures out + ([x] + rest) == out + [x] + rest
  {
  }

  lemma Fairly(a: seq<Entry>, u: seq<Entry>)
    requires AllAre(a, true) && AllAre(u, false)
    ensures FairOrder(Merged(a, u, 0))
  {
    hide Merged, FairFrom;
    MergedFair(a, u, 0);
  }

  lemma {:induction false} ChosenHead(x: Entry, s: seq<Entry>, answered: bool)
    ensures Chosen([x] + s, answered) == (if x.answered == answered then [x] else []) + Chosen(s, answered)
    decreases |s|
  {
    if s == [] {
      assert [x] + s == [x] && Front([x]) == [];
    } else {
      ChosenHead(x, Front(s), answered);
      assert Front([x] + s) == [x] + Front(s);
    }
  }

  lemma {:induction false} ChosenKinds(s: seq<Entry>)
    ensures AllAre(Chosen(s, true), true) && AllAre(Chosen(s, false), false)
    decreases |s|
  {
    if s != [] { ChosenKinds(Front(s)); }
  }

  lemma ChosenLast(s: seq<Entry>)
    requires s != []
    ensures Chosen(s, Last(s).answered) == Chosen(Front(s), Last(s).answered) + [Last(s)]
    ensures Chosen(s, !Last(s).answered) == Chosen(Front(s), !Last(s).answered)
  {
  }

  lemma {:induction false} ChosenSplit(s: seq<Entry>)
    ensures multiset(Chosen(s, true)) + multiset(Chosen(s, false)) == multiset(s)
    decreases |s|
  {
    hide Chosen;
    if s == [] {
      ChosenNone();
    } else {
      ChosenSplit(Front(s));
      ChosenLast(s);
      assert s == Front(s) + [Last(s)];
    }
  }

  lemma ChosenNone()
    ensures Chosen([], true) == [] && Chosen([], false) == []
  {
  }

  lemma EntriesPush(s: seq<Keyed>, x: Keyed)
    ensures Entries(s + [x]) == Entries(s) + [x.entry]
  {
  }

  lemma {:induction false} InsertEntries(s: seq<Keyed>, x: Keyed)
    ensures multiset(Entries(Insert(s, x))) == multiset(Entries(s)) + multiset{x.entry}
    decreases |s|
  {
    EntriesPush(s, x);
    if s != [] && Before(x, Last(s)) {
      InsertEntries(Front(s), x);
      EntriesPush(Insert(Front(s), x), Last(s));
      EntriesPush(Front(s), Last(s));
      assert s == Front(s) + [Last(s)];
    }
  }

  lemma {:induction false} SortedEntries(s: seq<Keyed>)
    ensures multiset(Entries(Sorted(s))) == multiset(Entries(s))
    decreases |s|
  {
    if s != [] {
      SortedEntries(Front(s));
      InsertEntries(Sorted(Front(s)), Last(s));
      EntriesPush(Front(s), Last(s));
      assert s == Front(s) + [Last(s)];
    }
  }

  lemma SameKind(s: seq<Entry>, t: seq<Entry>, answered: bool)
    requires multiset(s) == multiset(t) && AllAre(s, answered)
    ensures AllAre(t, answered)
  {
    forall i | 0 <= i < |t|
      ensures t[i].answered == answered
    {
      assert t[i] in multiset(t);
      assert t[i] in s;
    }
  }

  lemma OrdersKeep(some: seq<Entry>, none: seq<Entry>, a: seq<Entry>, u: seq<Entry>)
    requires AllAre(some, true) && AllAre(none, false)
    requires a == Entries(Sorted(AnsweredKeys(some))) && u == RoundRobin(Entries(Sorted(UntriedKeys(none))))
    ensures multiset(a) == multiset(some) && multiset(u) == multiset(none)
    ensures AllAre(a, true) && AllAre(u, false)
  {
    hide Sorted;
    SortedEntries(AnsweredKeys(some));
    SortedEntries(UntriedKeys(none));
    SortedEntries(RankKeys(Entries(Sorted(UntriedKeys(none)))));
    SameKind(some, a, true);
    SameKind(none, u, false);
  }

  lemma MergedNext(a: seq<Entry>, u: seq<Entry>, n: nat)
    ensures if a == [] && u == [] then Merged(a, u, n) == []
            else if UntriedNext(a, u, n) then Merged(a, u, n) == [u[0]] + Merged(a, u[1..], n + 1)
            else Merged(a, u, n) == [a[0]] + Merged(a[1..], u, n + 1)
  {
    hide UntriedNext;
  }

  lemma {:induction false} MergedKeeps(a: seq<Entry>, u: seq<Entry>, n: nat)
    ensures multiset(Merged(a, u, n)) == multiset(a) + multiset(u)
    decreases |a| + |u|
  {
    hide Merged, UntriedNext;
    MergedNext(a, u, n);
    if a == [] && u == [] {
    } else if UntriedNext(a, u, n) {
      MergedKeeps(a, u[1..], n + 1);
      HeadFirst(u[0], Merged(a, u[1..], n + 1));
      HeadOf(u);
    } else {
      MergedKeeps(a[1..], u, n + 1);
      HeadFirst(a[0], Merged(a[1..], u, n + 1));
      HeadOf(a);
    }
  }

  lemma NoneChosen(answered: bool)
    ensures Chosen([], answered) == []
  {
  }

  lemma HeadOf(s: seq<Entry>)
    requires s != []
    ensures multiset(s) == multiset{s[0]} + multiset(s[1..])
  {
    assert s == [s[0]] + s[1..];
  }

  lemma HeadFirst(x: Entry, rest: seq<Entry>)
    ensures multiset([x] + rest) == multiset{x} + multiset(rest)
  {
  }

  lemma {:induction false} MergedChosen(a: seq<Entry>, u: seq<Entry>, n: nat)
    requires AllAre(a, true) && AllAre(u, false)
    ensures Chosen(Merged(a, u, n), true) == a && Chosen(Merged(a, u, n), false) == u
    decreases |a| + |u|
  {
    hide UntriedNext, Merged, Chosen;
    MergedNext(a, u, n);
    NoneChosen(true);
    NoneChosen(false);
    if a == [] && u == [] {
    } else if UntriedNext(a, u, n) {
      MergedChosen(a, u[1..], n + 1);
      ChosenHead(u[0], Merged(a, u[1..], n + 1), true);
      ChosenHead(u[0], Merged(a, u[1..], n + 1), false);
    } else {
      MergedChosen(a[1..], u, n + 1);
      ChosenHead(a[0], Merged(a[1..], u, n + 1), true);
      ChosenHead(a[0], Merged(a[1..], u, n + 1), false);
    }
  }

  lemma MergedKind(a: seq<Entry>, u: seq<Entry>, n: nat)
    requires AllAre(a, true) && AllAre(u, false)
    ensures u == [] ==> AllAre(Merged(a, u, n), true)
    ensures a == [] ==> AllAre(Merged(a, u, n), false)
  {
    hide Merged;
    MergedKeeps(a, u, n);
    var out := Merged(a, u, n);
    if u == [] { assert multiset(u) == multiset{}; SameKind(a, out, true); }
    if a == [] { assert multiset(a) == multiset{}; SameKind(u, out, false); }
  }

  lemma {:induction false} MergedFair(a: seq<Entry>, u: seq<Entry>, n: nat)
    requires AllAre(a, true) && AllAre(u, false)
    ensures FairFrom(Merged(a, u, n), n)
    decreases |a| + |u|
  {
    if a == [] && u == [] {
    } else if UntriedNext(a, u, n) {
      MergedFair(a, u[1..], n + 1);
      MergedKind(a, u[1..], n + 1);
      FairPush(u[0], Merged(a, u[1..], n + 1), n);
    } else {
      MergedFair(a[1..], u, n + 1);
      MergedKind(a[1..], u, n + 1);
      FairPush(a[0], Merged(a[1..], u, n + 1), n);
    }
  }

  lemma FairPush(x: Entry, rest: seq<Entry>, n: nat)
    requires FairFrom(rest, n + 1)
    requires x.answered == (n % ONION_UNTRIED_EVERY == ONION_UNTRIED_EVERY - 1) ==> AllAre(rest, x.answered)
    ensures FairFrom([x] + rest, n)
  {
    var out := [x] + rest;
    forall i, j | 0 <= i < j < |out| && out[i].answered == ((n + i) % ONION_UNTRIED_EVERY == ONION_UNTRIED_EVERY - 1)
      ensures out[j].answered == out[i].answered
    {
      assert out[j] == rest[j - 1];
      if i > 0 {
        assert out[i] == rest[i - 1];
        assert (n + i) == (n + 1) + (i - 1);
      }
    }
  }

  // ------------------------------------------------------------------
  // Turns
  // ------------------------------------------------------------------

  /** No source gets its next name before every source that is still waiting
      got as many. */
  ghost predicate InTurns(s: seq<Entry>) {
    forall i, j | 0 <= i < j < |s| :: OfSource(s[..i + 1], s[i].source) <= OfSource(s[..j + 1], s[j].source)
  }

  /** Keys of a source ranked at most `most`. */
  function Upto(t: seq<Keyed>, source: nat, most: int): nat {
    if t == [] then 0 else Upto(Front(t), source, most) + Counted(Last(t), source, most)
  }

  function Counted(x: Keyed, source: nat, most: int): nat { if x.entry.source == source && x.a <= most then 1 else 0 }

  lemma UptoSnoc(t: seq<Keyed>, x: Keyed, source: nat, most: int)
    ensures Upto(t + [x], source, most) == Upto(t, source, most) + Counted(x, source, most)
  {
    assert Front(t + [x]) == t;
  }

  lemma {:induction false} UptoInsert(t: seq<Keyed>, x: Keyed, source: nat, most: int)
    ensures Upto(Insert(t, x), source, most) == Upto(t, source, most) + Counted(x, source, most)
    decreases |t|
  {
    hide Counted;
    UptoSnoc(t, x, source, most);
    if t != [] && Before(x, Last(t)) {
      UptoInsert(Front(t), x, source, most);
      UptoSnoc(Insert(Front(t), x), Last(t), source, most);
    }
  }

  /** Sorting keeps the counts. */
  lemma {:induction false} UptoSorted(t: seq<Keyed>, source: nat, most: int)
    ensures Upto(Sorted(t), source, most) == Upto(t, source, most)
    decreases |t|
  {
    hide Counted;
    if t != [] {
      UptoSorted(Front(t), source, most);
      UptoInsert(Sorted(Front(t)), Last(t), source, most);
    }
  }

  lemma RankFront(s: seq<Entry>)
    requires s != []
    ensures Front(RankKeys(s)) == RankKeys(Front(s))
    ensures Last(RankKeys(s)) == Keyed(OfSource(s, Last(s).source), |s| - 1, 0, Last(s))
  {
    hide RankKeys, OfSource, Entries;
    var n := |s| - 1;
    RankAt(s, n);
    assert s[..n + 1] == s;
    var a, b := Front(RankKeys(s)), RankKeys(Front(s));
    forall i | 0 <= i < n
      ensures a[i] == b[i]
    {
      RankAt(s, i);
      RankAt(Front(s), i);
      assert Front(s)[..i + 1] == s[..i + 1];
    }
  }

  lemma RankAt(s: seq<Entry>, i: nat)
    requires i < |s|
    ensures |RankKeys(s)| == |s| && RankKeys(s)[i] == Keyed(OfSource(s[..i + 1], s[i].source), i, 0, s[i])
  {
    hide OfSource;
  }

  /** Each source has one key of every rank up to how many it has. */
  lemma {:induction false} UptoRanks(s: seq<Entry>, source: nat, most: nat)
    ensures Upto(RankKeys(s), source, most) == Min(most, OfSource(s, source))
    decreases |s|
  {
    if s != [] {
      UptoRanks(Front(s), source, most);
      RankFront(s);
    }
  }

  lemma {:induction false} UptoParts(t: seq<Keyed>, k: nat, source: nat, most: int)
    requires k <= |t|
    ensures Upto(t[..k], source, most) <= Upto(t, source, most)
    ensures (forall i | k <= i < |t| :: t[i].a > most) ==> Upto(t[..k], source, most) == Upto(t, source, most)
    decreases |t|
  {
    if k < |t| {
      UptoParts(Front(t), k, source, most);
      assert Front(t)[..k] == t[..k];
    } else {
      assert t[..k] == t;
    }
  }

  /** Counting keys and counting entries. */
  lemma {:induction false} UptoEntries(t: seq<Keyed>, source: nat, most: int)
    ensures Upto(t, source, most) <= OfSource(Entries(t), source)
    ensures (forall i | 0 <= i < |t| :: t[i].a <= most) ==> Upto(t, source, most) == OfSource(Entries(t), source)
    decreases |t|
  {
    if t != [] {
      UptoEntries(Front(t), source, most);
      assert Front(Entries(t)) == Entries(Front(t));
    }
  }

  /** An entry comes in the output in the turn of its rank. */
  lemma RankIsTurn(s: seq<Entry>, k: nat)
    requires k < |Sorted(RankKeys(s))|
    ensures var t := Sorted(RankKeys(s));
            OfSource(Entries(t)[..k + 1], t[k].entry.source) == t[k].a
  {
    hide Sorted, RankKeys, OfSource, Upto;
    var t := Sorted(RankKeys(s));
    var source, a := t[k].entry.source, t[k].a;
    SortedInOrder(RankKeys(s));
    RanksPositive(s);
    SortedFrom(RankKeys(s), k);
    forall i | 0 <= i < |t|
      ensures i <= k ==> t[i].a <= a
      ensures k <= i ==> a <= t[i].a
    {
      if i < k { assert !Before(t[k], t[i]); }
      if k < i { assert !Before(t[i], t[k]); }
    }
    UptoSorted(RankKeys(s), source, a);
    UptoSorted(RankKeys(s), source, a - 1);
    UptoRanks(s, source, a);
    UptoRanks(s, source, a - 1);
    UptoParts(t, k + 1, source, a);
    UptoParts(t, k, source, a - 1);
    UptoEntries(t[..k + 1], source, a);
    UptoEntries(t[..k], source, a - 1);
    assert Entries(t)[..k + 1] == Entries(t[..k + 1]) && Entries(t)[..k] == Entries(t[..k]);
    OfSourceSnoc(Entries(t), k);
  }

  lemma OfSourceSnoc(s: seq<Entry>, k: nat)
    requires k < |s|
    ensures OfSource(s[..k + 1], s[k].source) == OfSource(s[..k], s[k].source) + 1
  {
    assert Front(s[..k + 1]) == s[..k];
  }

  lemma {:induction false} RanksPositive(s: seq<Entry>)
    ensures forall x | x in RankKeys(s) :: x.a >= 1
    decreases |s|
  {
    if s != [] {
      RanksPositive(Front(s));
      RankFront(s);
      assert RankKeys(s) == Front(RankKeys(s)) + [Last(RankKeys(s))];
    }
  }

  /** The round-robin order serves the sources in turns. */
  lemma RoundRobinFair(s: seq<Entry>)
    ensures multiset(RoundRobin(s)) == multiset(s) && InTurns(RoundRobin(s))
  {
    hide Sorted, RankKeys, OfSource;
    SortedEntries(RankKeys(s));
    SortedInOrder(RankKeys(s));
    var t, out := Sorted(RankKeys(s)), RoundRobin(s);
    forall i, j | 0 <= i < j < |out|
      ensures OfSource(out[..i + 1], out[i].source) <= OfSource(out[..j + 1], out[j].source)
    {
      RankIsTurn(s, i);
      RankIsTurn(s, j);
      assert !Before(t[j], t[i]);
    }
  }

  // ------------------------------------------------------------------
  // Who comes first
  // ------------------------------------------------------------------

  /** Of two that answered, this one may be called before the other. */
  predicate Later(x: Entry, y: Entry) {
    x.lastSuccess > y.lastSuccess || (x.lastSuccess == y.lastSuccess && x.name <= y.name)
  }

  ghost predicate LatestFirst(s: seq<Entry>) { forall i, j | 0 <= i < j < |s| :: Later(s[i], s[j]) }

  /** Of two untried, this one may be called before the other. */
  predicate Better(x: Entry, y: Entry) {
    || x.failures < y.failures
    || (x.failures == y.failures && x.lastSeen > y.lastSeen)
    || (x.failures == y.failures && x.lastSeen == y.lastSeen && x.name <= y.name)
  }

  /** How many of its source have been called, this one included. */
  function Turn(s: seq<Entry>, i: nat): nat
    requires i < |s|
  {
    OfSource(s[..i + 1], s[i].source)
  }

  /** The better first, within a turn and within a source. */
  ghost predicate BestFirst(s: seq<Entry>) {
    forall i, j | 0 <= i < j < |s| && (s[i].source == s[j].source || Turn(s, i) == Turn(s, j)) :: Better(s[i], s[j])
  }

  lemma AnsweredLatest(s: seq<Entry>)
    ensures LatestFirst(Entries(Sorted(AnsweredKeys(s))))
  {
    hide Sorted;
    var t := Sorted(AnsweredKeys(s));
    SortedInOrder(AnsweredKeys(s));
    forall i, j | 0 <= i < j < |t|
      ensures Later(t[i].entry, t[j].entry)
    {
      SortedFrom(AnsweredKeys(s), i);
      SortedFrom(AnsweredKeys(s), j);
      assert !Before(t[j], t[i]);
    }
  }

  lemma SortedFrom(keys: seq<Keyed>, k: nat)
    requires k < |Sorted(keys)|
    ensures Sorted(keys)[k] in keys
  {
    hide Sorted;
    assert Sorted(keys)[k] in multiset(Sorted(keys));
  }

  lemma UntriedInOrder(s: seq<Entry>)
    ensures var v := Entries(Sorted(UntriedKeys(s))); forall i, j | 0 <= i < j < |v| :: Better(v[i], v[j])
  {
    hide Sorted;
    var t := Sorted(UntriedKeys(s));
    SortedInOrder(UntriedKeys(s));
    forall i, j | 0 <= i < j < |t|
      ensures Better(t[i].entry, t[j].entry)
    {
      SortedFrom(UntriedKeys(s), i);
      SortedFrom(UntriedKeys(s), j);
      assert !Before(t[j], t[i]);
    }
  }

  lemma {:induction false} OfSourceGrows(s: seq<Entry>, k: nat, n: nat, source: nat)
    requires k <= n <= |s|
    ensures OfSource(s[..k], source) <= OfSource(s[..n], source)
    decreases n
  {
    if k < n {
      OfSourceGrows(s, k, n - 1, source);
      assert Front(s[..n]) == s[..n - 1];
    }
  }

  lemma RankOf(v: seq<Entry>, x: Keyed)
    requires x in RankKeys(v)
    ensures 0 <= x.b < |v| && x == Keyed(OfSource(v[..x.b + 1], v[x.b].source), x.b, 0, v[x.b])
  {
    hide OfSource;
  }

  /** In one turn, and of one source, the ranks keep the order. */
  lemma RanksKeep(v: seq<Entry>, x: Keyed, y: Keyed)
    requires x in RankKeys(v) && y in RankKeys(v) && !Before(y, x)
    requires x.a == y.a || x.entry.source == y.entry.source
    ensures 0 <= x.b <= y.b < |v| && x.entry == v[x.b] && y.entry == v[y.b]
  {
    hide OfSource, RankKeys;
    RankOf(v, x);
    RankOf(v, y);
    if y.b < x.b { OfSourceGrows(v, y.b + 1, x.b + 1, x.entry.source); }
  }

  lemma UntriedBest(s: seq<Entry>)
    ensures BestFirst(RoundRobin(Entries(Sorted(UntriedKeys(s)))))
  {
    hide Sorted, RankKeys, OfSource;
    var v := Entries(Sorted(UntriedKeys(s)));
    var t, out := Sorted(RankKeys(v)), RoundRobin(v);
    UntriedInOrder(s);
    SortedInOrder(RankKeys(v));
    forall i, j | 0 <= i < j < |out| && (out[i].source == out[j].source || Turn(out, i) == Turn(out, j))
      ensures Better(out[i], out[j])
    {
      RankIsTurn(v, i);
      RankIsTurn(v, j);
      SortedFrom(RankKeys(v), i);
      SortedFrom(RankKeys(v), j);
      assert !Before(t[j], t[i]);
      RanksKeep(v, t[i], t[j]);
    }
  }
}
