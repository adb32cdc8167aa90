/**
 * The session table: sessions are appended with their index as SessionID, and closing one
 * overwrites the slot named by its SessionID with the last session, which keeps its own id.
 */
module SessionTable {

  datatype Entry<K> = Entry(key: K, sid: nat)

  /** `count` is SessionCount. */
  datatype Table<K> = Table(entries: seq<Entry<K>>, count: int)

  function Keys<K>(entries: seq<Entry<K>>): (keys: seq<K>)
    ensures |keys| == |entries|
  {
    seq(|entries|, i requires 0 <= i < |entries| => entries[i].key)
  }

  /** The last element takes slot `i`. */
  function SwapRemove<T>(s: seq<T>, i: nat): seq<T>
    requires i < |s|
  {
    s[i := s[|s| - 1]][..|s| - 1]
  }

  function IndexOf<K(==)>(keys: seq<K>, k: K): (i: nat)
    requires k in keys
    ensures i < |keys| && keys[i] == k
  {
    if keys[0] == k then 0 else 1 + IndexOf(keys[1..], k)
  }

  /** The SessionID that session `k` carries. */
  function IdOf<K(==)>(t: Table<K>, k: K): nat
    requires k in Keys(t.entries)
  {
    t.entries[IndexOf(Keys(t.entries), k)].sid
  }

  function Add<K>(t: Table<K>, k: K): Table<K>
    requires t.count >= 0
  {
    Table(t.entries + [Entry(k, t.count)], t.count + 1)
  }

  /** Defined only when the id is an index of the table. */
  function Close<K>(t: Table<K>, sid: nat): Table<K>
    requires sid < |t.entries|
  {
    Table(SwapRemove(t.entries, sid), t.count - 1)
  }

  ghost predicate Distinct<K>(s: seq<K>) {
    forall i, j | 0 <= i < j < |s| :: s[i] != s[j]
  }

  lemma {:induction false} SwapRemoveMultiset<K>(s: seq<K>, i: nat)
    requires i < |s|
    ensures multiset(SwapRemove(s, i)) == multiset(s) - multiset{s[i]}
  {
    var n := |s| - 1;
    assert s == s[..n] + [s[n]];
    if i == n {
      assert SwapRemove(s, i) == s[..n];
    } else {
      UpdateMultiset(s[..n], i, s[n]);
      assert SwapRemove(s, i) == s[..n][i := s[n]];
    }
  }

  lemma {:induction false} UpdateMultiset<K>(s: seq<K>, i: nat, x: K)
    requires i < |s|
    ensures multiset(s[i := x]) == multiset(s) - multiset{s[i]} + multiset{x}
  {
    assert s == s[..i] + [s[i]] + s[i + 1..];
    assert s[i := x] == s[..i] + [x] + s[i + 1..];
  }

  lemma {:induction false} SwapRemoveKeys<K>(entries: seq<Entry<K>>, i: nat)
    requires i < |entries|
    ensures Keys(SwapRemove(entries, i)) == SwapRemove(Keys(entries), i)
  {
  }

  lemma {:induction false} DistinctMultiset<K>(s: seq<K>, i: nat)
    requires Distinct(s) && i < |s|
    ensures multiset(s)[s[i]] == 1
  {
    assert s == s[..i] + [s[i]] + s[i + 1..];
    assert s[i] !in s[..i] && s[i] !in s[i + 1..];
  }

  /** Closing removes exactly the session `k` when the slot named by its id holds it, and only
      then: otherwise some other session is taken out and `k` stays. */
  lemma {:induction false} CloseRemovesExactlyIff<K>(t: Table<K>, k: K, sid: nat)
    requires Distinct(Keys(t.entries)) && k in Keys(t.entries) && sid < |t.entries|
    ensures multiset(Keys(Close(t, sid).entries)) == multiset(Keys(t.entries)) - multiset{k}
            <==> t.entries[sid].key == k
    ensures t.entries[sid].key != k ==> k in Keys(Close(t, sid).entries)
  {
    var keys := Keys(t.entries);
    SwapRemoveKeys(t.entries, sid);
    SwapRemoveMultiset(keys, sid);
    if keys[sid] != k {
      var i :| 0 <= i < |keys| && keys[i] == k;
      DistinctMultiset(keys, i);
      assert multiset(SwapRemove(keys, sid))[k] == 1;
      assert k in multiset(SwapRemove(keys, sid));
    }
  }

  /** Every session is stored at the index it carries as id. */
  predicate Indexed<K>(t: Table<K>) {
    t.count == |t.entries| && forall i | 0 <= i < |t.entries| :: t.entries[i].sid == i
  }

  lemma {:induction false} AddKeepsIndexed<K>(t: Table<K>, k: K)
    requires Indexed(t)
    ensures Indexed(Add(t, k))
  {
  }

  /** Closing a session of an indexed table displaces at most one other, the one moved into the
      gap, whose id becomes the new length; the table stays indexed iff the last was closed. */
  lemma {:induction false} CloseKeepsIndexedIff<K>(t: Table<K>, sid: nat)
    requires Indexed(t) && sid < |t.entries|
    ensures Indexed(Close(t, sid)) <==> sid == |t.entries| - 1
    ensures var t' := Close(t, sid);
            && t'.count == |t'.entries|
            && (forall i | 0 <= i < |t'.entries| && i != sid :: t'.entries[i].sid == i)
            && (sid < |t'.entries| ==> t'.entries[sid].sid == |t'.entries|)
  {
    var t' := Close(t, sid);
    if sid < |t'.entries| {
      assert t'.entries[sid].sid == |t'.entries|;
    }
  }

  // ---- Runs ----

  datatype Action<K> = Joins(key: K) | Leaves(key: K)

  /** The intended table: closing `k` fills the slot where `k` really is. `moved` collects the
      sessions that have been moved into a gap since they joined. */
  datatype Intended<K> = Intended(keys: seq<K>, moved: set<K>)

  function IntendStep<K(==)>(s: Intended<K>, a: Action<K>): Intended<K> {
    match a
    case Joins(k) => Intended(s.keys + [k], s.moved - {k})
    case Leaves(k) =>
      if k !in s.keys then s
      else
        var i, last := IndexOf(s.keys, k), s.keys[|s.keys| - 1];
        Intended(SwapRemove(s.keys, i), (if last == k then s.moved else s.moved + {last}) - {k})
  }

  function Intend<K(==)>(acts: seq<Action<K>>): Intended<K> {
    if acts == [] then Intended([], {}) else IntendStep(Intend(acts[..|acts| - 1]), acts[|acts| - 1])
  }

  /** Sessions join when they are not in the table, and leave when they are. */
  predicate Sensible<K(==)>(acts: seq<Action<K>>) {
    acts == []
    || (Sensible(acts[..|acts| - 1])
        && (acts[|acts| - 1].Joins? <==> acts[|acts| - 1].key !in Intend(acts[..|acts| - 1]).keys))
  }

  /** The close of `k` is defined: the table has a slot with its id. */
  predicate CloseDefined<K(==)>(t: Table<K>, k: K) {
    k in Keys(t.entries) && IdOf(t, k) < |t.entries|
  }

  /** A step of the code's table; an undefined close is left without effect. */
  function RunStep<K(==)>(t: Table<K>, a: Action<K>): Table<K> {
    match a
    case Joins(k) => if t.count >= 0 then Add(t, k) else t
    case Leaves(k) => if CloseDefined(t, k) then Close(t, IdOf(t, k)) else t
  }

  function Run<K(==)>(acts: seq<Action<K>>): Table<K> {
    if acts == [] then Table([], 0) else RunStep(Run(acts[..|acts| - 1]), acts[|acts| - 1])
  }

  /** A close is faithful if it is defined and removes exactly the session it is called for. */
  predicate FaithfulStep<K(==)>(t: Table<K>, a: Action<K>) {
    a.Leaves? ==>
      && CloseDefined(t, a.key)
      && multiset(Keys(RunStep(t, a).entries)) == multiset(Keys(t.entries)) - multiset{a.key}
  }

  predicate Faithful<K(==)>(acts: seq<Action<K>>) {
    acts == [] || (Faithful(acts[..|acts| - 1]) && FaithfulStep(Run(acts[..|acts| - 1]), acts[|acts| - 1]))
  }

  /** No session is closed that was moved earlier. */
  predicate NeverClosesMoved<K(==)>(acts: seq<Action<K>>) {
    acts == []
    || (NeverClosesMoved(acts[..|acts| - 1])
        && (acts[|acts| - 1].Leaves? ==> acts[|acts| - 1].key !in Intend(acts[..|acts| - 1]).moved))
  }

  /** How the code's table relates to the intended one: a session that was never moved carries
      its index, and a moved one carries a larger number. */
  ghost predicate Tracks<K>(t: Table<K>, s: Intended<K>) {
    && t.count == |t.entries| && Keys(t.entries) == s.keys && Distinct(s.keys)
    && forall i | 0 <= i < |t.entries| ::
         if s.keys[i] in s.moved then t.entries[i].sid > i else t.entries[i].sid == i
  }

  lemma {:induction false} JoinTracks<K>(t: Table<K>, s: Intended<K>, k: K)
    requires Tracks(t, s) && k !in s.keys
    ensures Tracks(RunStep(t, Joins(k)), IntendStep(s, Joins(k)))
  {
    assert Keys(Add(t, k).entries) == s.keys + [k];
  }

  lemma {:induction false} SwapRemoveDistinct<K>(s: seq<K>, i: nat)
    requires Distinct(s) && i < |s|
    ensures Distinct(SwapRemove(s, i))
  {
  }

  lemma {:induction false} LeaveTracks<K>(t: Table<K>, s: Intended<K>, k: K)
    requires Tracks(t, s) && k in s.keys && k !in s.moved
    ensures Tracks(RunStep(t, Leaves(k)), IntendStep(s, Leaves(k)))
  {
    IdOfTracked(t, s, k);
    var i := IndexOf(s.keys, k);
    SwapRemoveKeys(t.entries, i);
    SwapRemoveDistinct(s.keys, i);
  }

  lemma {:induction false} IdOfTracked<K>(t: Table<K>, s: Intended<K>, k: K)
    requires Tracks(t, s) && k in s.keys
    ensures var i := IndexOf(s.keys, k);
            if k in s.moved then IdOf(t, k) > i else IdOf(t, k) == i
  {
  }

  /** From a tracked table a close is faithful iff its session was never moved. */
  lemma {:induction false} LeaveFaithfulIff<K>(t: Table<K>, s: Intended<K>, k: K)
    requires Tracks(t, s) && k in s.keys
    ensures FaithfulStep(t, Leaves(k)) <==> k !in s.moved
  {
    IdOfTracked(t, s, k);
    if CloseDefined(t, k) {
      CloseRemovesExactlyIff(t, k, IdOf(t, k));
    }
  }

  lemma {:induction false} FaithfulTracks<K>(acts: seq<Action<K>>)
    requires Sensible(acts) && (Faithful(acts) || NeverClosesMoved(acts))
    ensures Faithful(acts) && NeverClosesMoved(acts) && Tracks(Run(acts), Intend(acts))
  {
    if acts != [] {
      var prefix := acts[..|acts| - 1];
      FaithfulTracks(prefix);
      match acts[|acts| - 1]
      case Joins(k) => JoinTracks(Run(prefix), Intend(prefix), k);
      case Leaves(k) =>
        LeaveFaithfulIff(Run(prefix), Intend(prefix), k);
        LeaveTracks(Run(prefix), Intend(prefix), k);
    }
  }

  /** A run of joins and closes removes exactly the closed sessions if and only if no session is
      closed that an earlier close moved. */
  lemma {:induction false} FaithfulIffNoMovedClosed<K>(acts: seq<Action<K>>)
    requires Sensible(acts)
    ensures Faithful(acts) <==> NeverClosesMoved(acts)
  {
    if Faithful(acts) || NeverClosesMoved(acts) {
      FaithfulTracks(acts);
    }
  }

  /** In such a run the table holds the intended sessions, SessionCount of them, and a session sits
      at its own index exactly when it was never moved. */
  lemma {:induction false} AtOwnIndexIffNeverMoved<K>(acts: seq<Action<K>>)
    requires Sensible(acts) && NeverClosesMoved(acts)
    ensures var t, s := Run(acts), Intend(acts);
            && Keys(t.entries) == s.keys && t.count == |t.entries|
            && forall i | 0 <= i < |t.entries| :: t.entries[i].sid == i <==> s.keys[i] !in s.moved
  {
    FaithfulTracks(acts);
  }

  /** Only the session in the last slot is ever closed. */
  predicate ClosesOnlyLast<K(==)>(acts: seq<Action<K>>) {
    acts == []
    || (var keys, a := Intend(acts[..|acts| - 1]).keys, acts[|acts| - 1];
        ClosesOnlyLast(acts[..|acts| - 1]) && (a.Leaves? ==> keys != [] && keys[|keys| - 1] == a.key))
  }

  predicate AlwaysIndexed<K(==)>(acts: seq<Action<K>>) {
    Indexed(Run(acts)) && (acts == [] || AlwaysIndexed(acts[..|acts| - 1]))
  }

  lemma {:induction false} LastMovesNone<K>(acts: seq<Action<K>>)
    requires Sensible(acts) && ClosesOnlyLast(acts)
    ensures NeverClosesMoved(acts) && Intend(acts).moved == {}
  {
    if acts != [] {
      LastMovesNone(acts[..|acts| - 1]);
    }
  }

  /** One step on a table in which nobody was moved: it stays indexed iff a close is of the last. */
  lemma {:induction false} StepIndexedIff<K>(t: Table<K>, s: Intended<K>, a: Action<K>)
    requires Tracks(t, s) && s.moved == {} && (a.Joins? <==> a.key !in s.keys)
    ensures Indexed(RunStep(t, a)) <==> (a.Leaves? ==> s.keys[|s.keys| - 1] == a.key)
  {
    match a
    case Joins(k) => AddKeepsIndexed(t, k);
    case Leaves(k) =>
      IdOfTracked(t, s, k);
      CloseKeepsIndexedIff(t, IdOf(t, k));
  }

  /** In a run of joins and closes every session is always at its own index if and only if only last
      elements are closed. */
  lemma {:induction false} AlwaysIndexedIff<K>(acts: seq<Action<K>>)
    requires Sensible(acts)
    ensures AlwaysIndexed(acts) <==> ClosesOnlyLast(acts)
  {
    if acts != [] {
      var prefix, a := acts[..|acts| - 1], acts[|acts| - 1];
      AlwaysIndexedIff(prefix);
      if ClosesOnlyLast(prefix) {
        LastMovesNone(prefix);
        FaithfulTracks(prefix);
        StepIndexedIff(Run(prefix), Intend(prefix), a);
      }
    }
  }

  // ---- The objects ----

  class Session {
    var sessionID: nat
    /** The messages passed to its SendPacket. */
    var outgoing: seq<int>

    constructor ()
      ensures sessionID == 0 && outgoing == []
    {
      sessionID, outgoing := 0, [];
    }
  }

  class SessionManager {
    var sessions: seq<Session>
    var sessionCount: int

    ghost function Now(): Table<Session>
      reads this, sessions
    {
      Table(seq(|sessions|, i requires 0 <= i < |sessions| reads this, sessions =>
              Entry(sessions[i], sessions[i].sessionID)),
            sessionCount)
    }

    constructor ()
      ensures Now() == Table([], 0)
    {
      sessions, sessionCount := [], 0;
    }

    method AddSession(session: Session)
      requires session !in sessions && sessionCount >= 0
      modifies this, session`sessionID
      ensures sessions == old(sessions) + [session] && Now() == Add(old(Now()), session)
    {
      session.sessionID := sessionCount;
      sessions := sessions + [session];
      sessionCount := sessionCount + 1;
    }

    method CloseSession(session: Session)
      requires session.sessionID < |sessions|
      modifies this
      ensures Now() == Close(old(Now()), session.sessionID)
    {
      var last := sessions[|sessions| - 1];
      sessions := sessions[session.sessionID := last];
      sessions := sessions[..|sessions| - 1];
      sessionCount := sessionCount - 1;
    }

    /** One broadcast, undisturbed: every session gets the message once, after all it had. */
    method AllMessage(msg: int)
      requires Distinct(sessions)
      modifies sessions`outgoing
      ensures forall s <- sessions :: s.outgoing == old(s.outgoing) + [msg]
    {
      for i := 0 to |sessions|
        invariant sessions == old(sessions)
        invariant forall j | 0 <= j < i :: sessions[j].outgoing == old(sessions[j].outgoing) + [msg]
        invariant forall j | i <= j < |sessions| :: sessions[j].outgoing == old(sessions[j].outgoing)
      {
        sessions[i].outgoing := sessions[i].outgoing + [msg];
      }
    }
  }
}
