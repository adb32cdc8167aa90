/**
 * Accounts and logins. Each request is served by a handler running on its own; a database query,
 * field write or broadcast is one step, and the steps of all handlers interleave freely.
 */
module Login {
  import opened Bits
  import opened Options
  import Wire

  datatype Account = Account(id: string, pw: string)

  datatype SessionState = Wait | Connect | LoggedIn

  /** `user` is None until some login has stored its user info. */
  datatype Session = Session(state: SessionState, user: Option<Account>)

  /** A handler, at its next step. */
  datatype Handler =
    | CreateCheck(sid: nat, user: Account)     // IsValidID
    | CreateInsert(sid: nat, user: Account)    // CreateAccount: the INSERT
    | CreateConfirm(sid: nat, user: Account)   // CreateAccount: IsValidAccount, and the reply
    | LoginCheck(sid: nat, user: Account)      // IsValidAccount, and the reply if it fails
    | LoginSetUser(sid: nat, user: Account)    // SetUserInfo
    | LoginSetState(sid: nat, user: Account)   // SetSessionState
    | LoginAnnounce(sid: nat, user: Account)   // AllMessage
    | MoveAnnounce(sid: nat)                   // SetID with the session's user info, AllMessage
    | Finished

  /** The header fields that the handlers set, and the overloads of SetHeader that set them. */
  datatype Header = Header(ioType: uint32, success: bool, info: string)
  {
    function SetSuccess(val: bool): Header { this.(success := val) }

    function SetInfo(text: string): Header { this.(info := text) }

    /** A string literal alone is a pointer: it selects the overload for a bool, not the one for a
        string, and a pointer to characters is true. */
    function SetLiteral(text: string): Header { SetSuccess(true) }

    /** The overload that takes a type, a bool and a string. */
    function SetAll(ioType: uint32, val: bool, text: string): Header {
      this.(ioType := ioType).SetInfo(text).SetSuccess(val)
    }
  }

  /** The header of a new user info packet. */
  const NEW_HEADER := Header(Wire.S_LOGIN, false, "")

  /** The header of the reply to a create request. */
  function CreateHeader(result: bool, text: string): Header {
    NEW_HEADER.SetSuccess(result).SetLiteral(text)
  }

  /** The header of the answer to a login request, whatever header the request had. */
  function LoginHeader(result: bool): Header {
    NEW_HEADER.SetAll(Wire.S_LOGIN, result, if result then "" else "Unkwon Account")
  }

  /** A create reply carries a header and no account; `request` is what it answers. */
  datatype Message =
    | CreateReply(sid: nat, request: Account, header: Header)
    | LoginReply(sid: nat, user: Account, header: Header)
    | LoginBroadcast(user: Account, header: Header)
    | MoveBroadcast(id: Option<string>)

  datatype State =
    State(accounts: seq<Account>, sessions: seq<Session>, handlers: seq<Handler>, messages: seq<Message>)

  /** A request arrives, or handler `t` takes its next step; `ok` says whether an INSERT works. */
  datatype Action = Request(handler: Handler) | Advance(t: nat, ok: bool)

  predicate HasId(accounts: seq<Account>, id: string) {
    exists a <- accounts :: a.id == id
  }

  predicate Enabled(s: State, a: Action) {
    match a
    case Request(handler) =>
      (handler.CreateCheck? || handler.LoginCheck? || handler.MoveAnnounce?) && handler.sid < |s.sessions|
    case Advance(t, _) => t < |s.handlers| && !s.handlers[t].Finished? && s.handlers[t].sid < |s.sessions|
  }

  function Apply(s: State, a: Action): State
    requires Enabled(s, a)
  {
    match a
    case Request(handler) => s.(handlers := s.handlers + [handler])
    case Advance(t, ok) =>
      match s.handlers[t]
      case CreateCheck(sid, user) =>
        if HasId(s.accounts, user.id)
        then s.(handlers := s.handlers[t := Finished],
                messages := s.messages + [CreateReply(sid, user, CreateHeader(false, "Already Exist ID"))])
        else s.(handlers := s.handlers[t := CreateInsert(sid, user)])
      case CreateInsert(sid, user) =>
        s.(handlers := s.handlers[t := CreateConfirm(sid, user)],
           accounts := if ok then s.accounts + [user] else s.accounts)
      case CreateConfirm(sid, user) =>
        var result := user in s.accounts;
        var header := CreateHeader(result, if result then "Success" else "Unknown Error");
        s.(handlers := s.handlers[t := Finished], messages := s.messages + [CreateReply(sid, user, header)])
      case LoginCheck(sid, user) =>
        if user in s.accounts
        then s.(handlers := s.handlers[t := LoginSetUser(sid, user)])
        else s.(handlers := s.handlers[t := Finished],
                messages := s.messages + [LoginReply(sid, user, LoginHeader(false))])
      case LoginSetUser(sid, user) =>
        s.(handlers := s.handlers[t := LoginSetState(sid, user)],
           sessions := s.sessions[sid := s.sessions[sid].(user := Some(user))])
      case LoginSetState(sid, user) =>
        s.(handlers := s.handlers[t := LoginAnnounce(sid, user)],
           sessions := s.sessions[sid := s.sessions[sid].(state := LoggedIn)])
      case LoginAnnounce(sid, user) =>
        s.(handlers := s.handlers[t := Finished], messages := s.messages + [LoginBroadcast(user, LoginHeader(true))])
      case MoveAnnounce(sid) =>
        s.(handlers := s.handlers[t := Finished], messages := s.messages + [MoveBroadcast(ShownId(s.sessions[sid]))])
  }

  function ShownId(session: Session): Option<string> {
    match session.user
    case None => None
    case Some(user) => Some(user.id)
  }

  predicate Initial(s: State) {
    s.handlers == [] && s.messages == [] && forall x <- s.sessions :: x == Session(Wait, None)
  }

  ghost predicate Step(s: State, s': State) {
    exists a :: Enabled(s, a) && s' == Apply(s, a)
  }

  ghost predicate StepsTo(ss: seq<State>, k: nat)
    requires k < |ss|
  {
    if k == 0 then Initial(ss[0]) else Step(ss[k - 1], ss[k])
  }

  ghost predicate Run(ss: seq<State>) {
    |ss| > 0 && forall k: nat | k < |ss| :: StepsTo(ss, k)
  }

  lemma {:induction false} RunPrefix(ss: seq<State>)
    requires Run(ss)
    ensures if |ss| == 1 then Initial(ss[0]) else Run(ss[..|ss| - 1]) && Step(ss[|ss| - 2], ss[|ss| - 1])
  {
    assert StepsTo(ss, |ss| - 1);
    if |ss| > 1 {
      var prefix := ss[..|ss| - 1];
      forall k: nat | k < |prefix| ensures StepsTo(prefix, k) {
        assert StepsTo(ss, k);
      }
    }
  }

  // ---- Safety of logins ----

  predicate HandlerOk(s: State, handler: Handler) {
    (!handler.Finished? ==> handler.sid < |s.sessions|)
    && match handler
    case LoginSetUser(_, user) => user in s.accounts
    case LoginSetState(sid, user) => user in s.accounts && s.sessions[sid].user.Some?
    case LoginAnnounce(_, user) => user in s.accounts
    case _ => true
  }

  predicate SessionOk(s: State, x: Session) {
    && (x.user.Some? ==> x.user.value in s.accounts)
    && (x.state == LoggedIn ==> x.user.Some?)
  }

  predicate MessageOk(s: State, m: Message) {
    match m
    case CreateReply(_, _, header) => header == LoginHeader(true)
    case LoginReply(_, user, header) => header == LoginHeader(false)
    case LoginBroadcast(user, header) => header == LoginHeader(true) && user in s.accounts
    case MoveBroadcast(id) => id.Some? ==> HasId(s.accounts, id.value)
  }

  predicate Inv(s: State) {
    && (forall handler <- s.handlers :: HandlerOk(s, handler))
    && (forall x <- s.sessions :: SessionOk(s, x))
    && (forall m <- s.messages :: MessageOk(s, m))
  }

  /** The account table only grows, stored users stay stored, and sessions do not go away. */
  predicate Grown(s: State, s': State) {
    && s.accounts <= s'.accounts
    && |s'.sessions| == |s.sessions|
    && forall k | 0 <= k < |s.sessions| :: s.sessions[k].user.Some? ==> s'.sessions[k].user.Some?
  }

  lemma {:induction false} StepGrows(s: State, a: Action)
    requires Enabled(s, a)
    ensures Grown(s, Apply(s, a))
  {
  }

  lemma {:induction false} GrownKeeps(s: State, s': State)
    requires Grown(s, s') && Inv(s)
    ensures forall handler <- s.handlers :: HandlerOk(s', handler)
    ensures forall x <- s.sessions :: SessionOk(s', x)
    ensures forall m <- s.messages :: MessageOk(s', m)
  {
    assert forall a <- s.accounts :: a in s'.accounts;
    forall m <- s.messages ensures MessageOk(s', m) {
      assert MessageOk(s, m);
    }
  }

  /** Only the stepping handler, at most one session and at most one message are new. */
  lemma {:induction false} StepInv(s: State, a: Action)
    requires Inv(s) && Enabled(s, a)
    ensures Inv(Apply(s, a))
  {
    var s' := Apply(s, a);
    StepGrows(s, a);
    GrownKeeps(s, s');
    if a.Advance? {
      var handler := s.handlers[a.t];
      assert HandlerOk(s, handler) && HandlerOk(s', handler);
      assert SessionOk(s, s.sessions[handler.sid]);
      assert HandlerOk(s', s'.handlers[a.t]);
    }
  }

  lemma {:induction false} RunInv(ss: seq<State>)
    requires Run(ss)
    ensures Inv(ss[|ss| - 1])
  {
    RunPrefix(ss);
    if |ss| > 1 {
      RunInv(ss[..|ss| - 1]);
      var a :| Enabled(ss[|ss| - 2], a) && ss[|ss| - 1] == Apply(ss[|ss| - 2], a);
      StepInv(ss[|ss| - 2], a);
    }
  }

  /** In every run, however its requests interleave: a session in state Login stores a pair of the
      account table; a login broadcast claims success and carries such a pair; a login reply claims
      failure; a broadcast move names, if anything, an account. */
  lemma {:induction false} LoginSafety(ss: seq<State>)
    requires Run(ss)
    ensures var s := ss[|ss| - 1];
            && (forall x <- s.sessions :: x.state == LoggedIn ==> x.user.Some? && x.user.value in s.accounts)
            && (forall m <- s.messages :: m.LoginBroadcast? ==> m.header.success && m.user in s.accounts)
            && (forall m <- s.messages :: m.LoginReply? ==> !m.header.success)
            && (forall m <- s.messages :: m.MoveBroadcast? && m.id.Some? ==> HasId(s.accounts, m.id.value))
  {
    RunInv(ss);
    var s := ss[|ss| - 1];
    forall m <- s.messages ensures MessageOk(s, m) {
    }
    forall x <- s.sessions ensures SessionOk(s, x) {
    }
  }

  /** From `s` to `s'` a login stored `user` in session `k`. */
  ghost predicate Stores(s: State, s': State, k: nat, user: Account) {
    exists t: nat ::
      && t < |s.handlers| && t < |s'.handlers|
      && s.handlers[t] == LoginSetUser(k, user) && s'.handlers[t] == LoginSetState(k, user)
  }

  lemma {:induction false} StepStores(s: State, a: Action, k: nat)
    requires Enabled(s, a) && k < |s.sessions|
    ensures |Apply(s, a).sessions| == |s.sessions|
    ensures forall user | Stores(s, Apply(s, a), k, user) :: Apply(s, a).sessions[k].user == Some(user)
    ensures Apply(s, a).sessions[k].user == s.sessions[k].user
            || (exists user :: Stores(s, Apply(s, a), k, user) && Apply(s, a).sessions[k].user == Some(user))
  {
    var s' := Apply(s, a);
    if a.Advance? && s.handlers[a.t].LoginSetUser? && s.handlers[a.t].sid == k {
      assert s'.handlers[a.t] == LoginSetState(k, s.handlers[a.t].user);
      assert Stores(s, s', k, s.handlers[a.t].user);
    }
  }

  /** The step from position `i` of a run stored `user` in session `k`. */
  ghost predicate StoresAt(ss: seq<State>, i: nat, k: nat, user: Account) {
    i + 1 < |ss| && Stores(ss[i], ss[i + 1], k, user)
  }

  ghost predicate NeverStored(ss: seq<State>, k: nat) {
    forall i: nat, u: Account :: !StoresAt(ss, i, k, u)
  }

  /** Position `j` of a run stored `user` in session `k`, and no later one stored any. */
  ghost predicate LastStored(ss: seq<State>, k: nat, j: nat, user: Account) {
    StoresAt(ss, j, k, user) && forall i: nat, u: Account | StoresAt(ss, i, k, u) :: i <= j
  }

  /** What the logins of a run left as user info of session `k`. */
  ghost predicate LeftBehind(ss: seq<State>, k: nat, info: Option<Account>) {
    match info
    case None => NeverStored(ss, k)
    case Some(user) => exists j: nat :: LastStored(ss, k, j, user)
  }

  /** The user info of a session is what the last login to reach it stored, if any ever did. */
  lemma {:induction false} UserIsLastStored(ss: seq<State>, k: nat)
    requires Run(ss) && k < |ss[0].sessions|
    ensures |ss[|ss| - 1].sessions| == |ss[0].sessions|
    ensures LeftBehind(ss, k, ss[|ss| - 1].sessions[k].user)
  {
    RunPrefix(ss);
    if |ss| == 1 {
      assert ss[0].sessions[k] in ss[0].sessions;
    } else {
      var s, s' := ss[|ss| - 2], ss[|ss| - 1];
      UserIsLastStored(ss[..|ss| - 1], k);
      var a :| Enabled(s, a) && s' == Apply(s, a);
      StepStores(s, a, k);
      if user :| Stores(s, s', k, user) {
        assert StoresAt(ss, |ss| - 2, k, user);
        assert LastStored(ss, k, |ss| - 2, user);
      } else {
        NothingStored(ss, k, s.sessions[k].user);
      }
    }
  }

  lemma {:induction false} NothingStored(ss: seq<State>, k: nat, info: Option<Account>)
    requires |ss| > 1 && LeftBehind(ss[..|ss| - 1], k, info)
    requires forall i: nat, u: Account | StoresAt(ss, i, k, u) :: i != |ss| - 2
    ensures LeftBehind(ss, k, info)
  {
    var prefix := ss[..|ss| - 1];
    forall i: nat, u: Account ensures StoresAt(ss, i, k, u) <==> StoresAt(prefix, i, k, u) {
      assert i < |ss| - 2 ==> prefix[i] == ss[i] && prefix[i + 1] == ss[i + 1];
    }
    if info.Some? {
      var j: nat :| LastStored(prefix, k, j, info.value);
      assert LastStored(ss, k, j, info.value);
    }
  }

  /** A broadcast move shows the id of the last login that reached its session; a logged-in session's
      move always shows one, and it is the id of an account. */
  lemma {:induction false} MoveNamesAccount(ss: seq<State>, t: nat, ok: bool)
    requires Run(ss)
    requires var s := ss[|ss| - 1]; Enabled(s, Advance(t, ok)) && s.handlers[t].MoveAnnounce?
    ensures var s := ss[|ss| - 1];
            var sent := Apply(s, Advance(t, ok)).messages[|s.messages|..];
            var k := s.handlers[t].sid;
            && |sent| == 1 && sent[0].MoveBroadcast?
            && (s.sessions[k].state == LoggedIn ==> sent[0].id.Some? && HasId(s.accounts, sent[0].id.value))
            && match sent[0].id
               case None => NeverStored(ss, k)
               case Some(id) => exists j: nat, user :: LastStored(ss, k, j, user) && user.id == id
  {
    RunInv(ss);
    RunKeepsSessions(ss);
    var s := ss[|ss| - 1];
    assert SessionOk(s, s.sessions[s.handlers[t].sid]);
    UserIsLastStored(ss, s.handlers[t].sid);
  }

  lemma {:induction false} RunKeepsSessions(ss: seq<State>)
    requires Run(ss)
    ensures |ss[|ss| - 1].sessions| == |ss[0].sessions|
  {
    RunPrefix(ss);
    if |ss| > 1 {
      RunKeepsSessions(ss[..|ss| - 1]);
    }
  }

  // ---- Distinct ids ----

  predicate DistinctIds(accounts: seq<Account>) {
    forall i, j | 0 <= i < j < |accounts| :: accounts[i].id != accounts[j].id
  }

  /** No two create requests for one id are between their check and their insert. */
  predicate CreatesApart(s: State) {
    forall t, u | 0 <= t < u < |s.handlers| && s.handlers[t].CreateInsert? && s.handlers[u].CreateInsert? ::
      s.handlers[t].user.id != s.handlers[u].user.id
  }

  /** An id that passed its check is not in the table yet. */
  predicate ChecksHold(s: State) {
    forall t | 0 <= t < |s.handlers| && s.handlers[t].CreateInsert? :: !HasId(s.accounts, s.handlers[t].user.id)
  }

  lemma {:induction false} HasIdPush(accounts: seq<Account>, a: Account, id: string)
    ensures HasId(accounts + [a], id) <==> HasId(accounts, id) || a.id == id
  {
    if HasId(accounts, id) {
      var x :| x in accounts && x.id == id;
      assert x in accounts + [a];
    }
    if a.id == id {
      assert a in accounts + [a];
    }
  }

  lemma {:induction false} StepKeepsIdsDistinct(s: State, a: Action)
    requires Enabled(s, a) && DistinctIds(s.accounts) && ChecksHold(s) && CreatesApart(s)
    ensures DistinctIds(Apply(s, a).accounts) && ChecksHold(Apply(s, a))
  {
    var s' := Apply(s, a);
    if a.Advance? && a.ok && s.handlers[a.t].CreateInsert? {
      var user := s.handlers[a.t].user;
      forall i | 0 <= i < |s.accounts| ensures s.accounts[i].id != user.id {
        assert s.accounts[i] in s.accounts;
      }
      forall t | 0 <= t < |s'.handlers| && s'.handlers[t].CreateInsert?
        ensures !HasId(s'.accounts, s'.handlers[t].user.id)
      {
        HasIdPush(s.accounts, user, s.handlers[t].user.id);
      }
    }
  }

  /** With creates for one id kept apart so far, ids are pairwise distinct in every run. */
  lemma {:induction false} IdsStayDistinct(ss: seq<State>)
    requires Run(ss) && DistinctIds(ss[0].accounts)
    requires forall k | 0 <= k < |ss| - 1 :: CreatesApart(ss[k])
    ensures DistinctIds(ss[|ss| - 1].accounts) && ChecksHold(ss[|ss| - 1])
  {
    RunPrefix(ss);
    if |ss| > 1 {
      var prefix := ss[..|ss| - 1];
      assert prefix[0] == ss[0];
      IdsStayDistinct(prefix);
      var s := ss[|ss| - 2];
      assert s == prefix[|prefix| - 1];
      assert CreatesApart(s);
      var a :| Enabled(s, a) && ss[|ss| - 1] == Apply(s, a);
      StepKeepsIdsDistinct(s, a);
    }
  }

  /** The state after the enabled steps of `acts`; one that is not enabled has no effect. */
  function After(s: State, acts: seq<Action>): State {
    if acts == [] then s
    else
      var p, a := After(s, acts[..|acts| - 1]), acts[|acts| - 1];
      if Enabled(p, a) then Apply(p, a) else p
  }

  /** Only handlers that run already take steps; no request arrives. */
  predicate OnlyAdvances(acts: seq<Action>) {
    forall i | 0 <= i < |acts| :: acts[i].Advance?
  }

  /** Handler `t` may still insert the id of its request, as far as it can tell. */
  predicate MayInsert(s: State, t: nat) {
    && t < |s.handlers|
    && match s.handlers[t]
       case CreateCheck(_, user) => !HasId(s.accounts, user.id)
       case CreateInsert(_, _) => true
       case _ => false
  }

  /** Two running creates may both still insert the same id, or one an id that is in the table. */
  predicate Clash(s: State) {
    || (exists t: nat | t < |s.handlers| :: s.handlers[t].CreateInsert? && HasId(s.accounts, s.handlers[t].user.id))
    || (exists t: nat, u: nat | t < u < |s.handlers| ::
          MayInsert(s, t) && MayInsert(s, u) && s.handlers[t].user.id == s.handlers[u].user.id)
  }

  lemma {:induction false} InsertKeepsApart(s: State, t: nat, ok: bool)
    requires Enabled(s, Advance(t, ok)) && s.handlers[t].CreateInsert? && !Clash(s) && DistinctIds(s.accounts)
    ensures var s' := Apply(s, Advance(t, ok)); !Clash(s') && DistinctIds(s'.accounts)
  {
    var s', user := Apply(s, Advance(t, ok)), s.handlers[t].user;
    assert MayInsert(s, t) && !HasId(s.accounts, user.id);
    forall i | 0 <= i < |s.accounts| ensures s.accounts[i].id != user.id {
      assert s.accounts[i] in s.accounts;
    }
    forall u: nat | u < |s.handlers| && MayInsert(s', u)
      ensures u != t && MayInsert(s, u) && !HasId(s'.accounts, s.handlers[u].user.id)
    {
      HasIdPush(s.accounts, user, s.handlers[u].user.id);
      assert MayInsert(s, u);
    }
  }

  lemma {:induction false} AdvanceKeepsApart(s: State, t: nat, ok: bool)
    requires Enabled(s, Advance(t, ok)) && !Clash(s) && DistinctIds(s.accounts)
    ensures var s' := Apply(s, Advance(t, ok)); !Clash(s') && DistinctIds(s'.accounts)
  {
    var s' := Apply(s, Advance(t, ok));
    if s.handlers[t].CreateInsert? {
      InsertKeepsApart(s, t, ok);
    } else {
      forall u: nat | u < |s.handlers| && MayInsert(s', u)
        ensures MayInsert(s, u) && s'.handlers[u].user == s.handlers[u].user
      {
      }
    }
  }

  lemma {:induction false} ApartForGood(s: State, acts: seq<Action>)
    requires OnlyAdvances(acts) && !Clash(s) && DistinctIds(s.accounts)
    ensures !Clash(After(s, acts)) && DistinctIds(After(s, acts).accounts)
  {
    if acts != [] {
      var p, a := After(s, acts[..|acts| - 1]), acts[|acts| - 1];
      ApartForGood(s, acts[..|acts| - 1]);
      if Enabled(p, a) {
        AdvanceKeepsApart(p, a.t, a.ok);
      }
    }
  }

  lemma {:induction false} AfterMore(s: State, acts: seq<Action>, t: nat)
    requires OnlyAdvances(acts) && Enabled(After(s, acts), Advance(t, true))
    ensures OnlyAdvances(acts + [Advance(t, true)])
    ensures After(s, acts + [Advance(t, true)]) == Apply(After(s, acts), Advance(t, true))
  {
    assert (acts + [Advance(t, true)])[..|acts|] == acts;
  }

  /** A create that may still insert is brought to its insert. */
  lemma {:induction false} ReachesInsert(s: State, acts: seq<Action>, t: nat) returns (acts': seq<Action>)
    requires OnlyAdvances(acts) && MayInsert(After(s, acts), t)
    requires Enabled(After(s, acts), Advance(t, true))
    ensures OnlyAdvances(acts')
    ensures var p, q := After(s, acts), After(s, acts');
            && q.accounts == p.accounts && q.sessions == p.sessions
            && q.handlers == p.handlers[t := CreateInsert(p.handlers[t].sid, p.handlers[t].user)]
  {
    var p := After(s, acts);
    if p.handlers[t].CreateInsert? {
      acts' := acts;
    } else {
      AfterMore(s, acts, t);
      acts' := acts + [Advance(t, true)];
    }
  }

  lemma {:induction false} InsertDuplicates(s: State, acts: seq<Action>, t: nat) returns (acts': seq<Action>)
    requires OnlyAdvances(acts) && Enabled(After(s, acts), Advance(t, true))
    requires var p := After(s, acts); p.handlers[t].CreateInsert? && HasId(p.accounts, p.handlers[t].user.id)
    ensures OnlyAdvances(acts') && !DistinctIds(After(s, acts').accounts)
  {
    var p := After(s, acts);
    var x :| x in p.accounts && x.id == p.handlers[t].user.id;
    var i :| 0 <= i < |p.accounts| && p.accounts[i] == x;
    AfterMore(s, acts, t);
    acts' := acts + [Advance(t, true)];
    var accounts := After(s, acts').accounts;
    assert accounts[i].id == accounts[|p.accounts|].id;
  }

  lemma {:induction false} ClashDuplicates(s: State) returns (acts: seq<Action>)
    requires Inv(s) && Clash(s)
    ensures OnlyAdvances(acts) && !DistinctIds(After(s, acts).accounts)
  {
    if t: nat :| t < |s.handlers| && s.handlers[t].CreateInsert? && HasId(s.accounts, s.handlers[t].user.id) {
      assert HandlerOk(s, s.handlers[t]);
      acts := InsertDuplicates(s, [], t);
    } else {
      var t: nat, u: nat :| t < u < |s.handlers| && MayInsert(s, t) && MayInsert(s, u)
                            && s.handlers[t].user.id == s.handlers[u].user.id;
      assert HandlerOk(s, s.handlers[t]) && HandlerOk(s, s.handlers[u]);
      acts := ReachesInsert(s, [], t);
      acts := ReachesInsert(s, acts, u);
      HasIdPush(s.accounts, s.handlers[t].user, s.handlers[u].user.id);
      AfterMore(s, acts, t);
      acts := InsertDuplicates(s, acts + [Advance(t, true)], u);
    }
  }

  /** The running handlers can give two accounts one id if and only if two creates may both still
      insert it, or one may insert an id that has come into the table since its check. */
  lemma {:induction false} DuplicatesIffClash(s: State)
    requires Inv(s) && DistinctIds(s.accounts)
    ensures (exists acts | OnlyAdvances(acts) :: !DistinctIds(After(s, acts).accounts)) <==> Clash(s)
  {
    if Clash(s) {
      var acts := ClashDuplicates(s);
    } else {
      forall acts | OnlyAdvances(acts) ensures DistinctIds(After(s, acts).accounts) {
        ApartForGood(s, acts);
      }
    }
  }

  lemma {:induction false} RunExtended(ss: seq<State>, a: Action)
    requires Run(ss) && Enabled(ss[|ss| - 1], a)
    ensures Run(ss + [Apply(ss[|ss| - 1], a)])
  {
    var ss' := ss + [Apply(ss[|ss| - 1], a)];
    forall k: nat | k < |ss'| ensures StepsTo(ss', k) {
      assert k < |ss| ==> StepsTo(ss, k);
    }
  }

  lemma {:induction false} RunContinued(ss: seq<State>, acts: seq<Action>) returns (ss': seq<State>)
    requires Run(ss)
    ensures Run(ss') && ss'[0] == ss[0] && ss'[|ss'| - 1] == After(ss[|ss| - 1], acts)
  {
    ss' := ss;
    if acts != [] {
      ss' := RunContinued(ss, acts[..|acts| - 1]);
      var a := acts[|acts| - 1];
      if Enabled(ss'[|ss'| - 1], a) {
        RunExtended(ss', a);
        ss' := ss' + [Apply(ss'[|ss'| - 1], a)];
      }
    }
  }

  /** From any initial state two requests to create one new id have a run that creates it twice. */
  lemma {:induction false} TwoCreatesDuplicate(s: State, sid: nat, a: Account, b: Account) returns (ss: seq<State>)
    requires Initial(s) && sid < |s.sessions| && a.id == b.id && !HasId(s.accounts, a.id)
    ensures Run(ss) && ss[0] == s && !DistinctIds(ss[|ss| - 1].accounts)
  {
    var requests := [Request(CreateCheck(sid, a)), Request(CreateCheck(sid, b))];
    assert StepsTo([s], 0);
    var ss1 := [s];
    RunExtended(ss1, requests[0]);
    ss1 := ss1 + [Apply(s, requests[0])];
    RunExtended(ss1, requests[1]);
    ss1 := ss1 + [Apply(ss1[1], requests[1])];
    RunInv(ss1);
    assert MayInsert(ss1[2], 0) && MayInsert(ss1[2], 1);
    var acts := ClashDuplicates(ss1[2]);
    ss := RunContinued(ss1, acts);
  }

  // ---- What create replies claim ----

  /** Every create reply of a run has the header of a successful login, whatever became of the
      request. */
  lemma {:induction false} CreateRepliesClaimSuccess(ss: seq<State>)
    requires Run(ss)
    ensures forall m <- ss[|ss| - 1].messages :: m.CreateReply? ==> m.header == LoginHeader(true) && m.header.success
  {
    RunInv(ss);
    var s := ss[|ss| - 1];
    forall m <- s.messages ensures MessageOk(s, m) {
    }
  }

  /** Between `s` and `s'` a reply claimed success for a pair that is not in the table. */
  predicate ClaimsFalsely(s: State, s': State) {
    exists i | |s.messages| <= i < |s'.messages| ::
      s'.messages[i].CreateReply? && s'.messages[i].header.success && s'.messages[i].request !in s'.accounts
  }

  predicate Creating(handler: Handler) {
    handler.CreateCheck? || handler.CreateInsert? || handler.CreateConfirm?
  }

  /** A create is running for a pair that is not in the table. */
  predicate CreatesMissing(s: State) {
    exists t | 0 <= t < |s.handlers| :: Creating(s.handlers[t]) && s.handlers[t].user !in s.accounts
  }

  /** The new messages of `s'` answer creates that were running in `s`, and so do its creates. */
  ghost predicate AnswersRunning(s: State, s': State) {
    && |s.messages| <= |s'.messages| && |s.handlers| == |s'.handlers| && s.accounts <= s'.accounts
    && (forall t | 0 <= t < |s.handlers| && Creating(s'.handlers[t]) ::
          Creating(s.handlers[t]) && s.handlers[t].user == s'.handlers[t].user)
    && (forall i | |s.messages| <= i < |s'.messages| && s'.messages[i].CreateReply? ::
          exists t | 0 <= t < |s.handlers| ::
            Creating(s.handlers[t]) && s.handlers[t].user == s'.messages[i].request)
  }

  lemma {:induction false} StepAnswersRunning(s: State, p: State, a: Action)
    requires AnswersRunning(s, p) && Enabled(p, a) && a.Advance?
    ensures AnswersRunning(s, Apply(p, a))
  {
    var q := Apply(p, a);
    forall i | |s.messages| <= i < |q.messages| && q.messages[i].CreateReply?
      ensures exists t | 0 <= t < |s.handlers| ::
                Creating(s.handlers[t]) && s.handlers[t].user == q.messages[i].request
    {
      if i == |p.messages| {
        assert Creating(s.handlers[a.t]) && s.handlers[a.t].user == q.messages[i].request;
      } else {
        assert q.messages[i] == p.messages[i];
      }
    }
  }

  lemma {:induction false} RepliesAnswerRunning(s: State, acts: seq<Action>)
    requires OnlyAdvances(acts)
    ensures AnswersRunning(s, After(s, acts))
  {
    if acts != [] {
      var p, a := After(s, acts[..|acts| - 1]), acts[|acts| - 1];
      RepliesAnswerRunning(s, acts[..|acts| - 1]);
      if Enabled(p, a) {
        StepAnswersRunning(s, p, a);
      }
    }
  }

  /** A create for a missing pair is answered with success although nothing is stored: its id is
      taken, or its INSERT fails. */
  lemma {:induction false} MissingIsClaimed(s: State) returns (acts: seq<Action>)
    requires Inv(s) && CreatesMissing(s)
    ensures OnlyAdvances(acts) && ClaimsFalsely(s, After(s, acts))
  {
    var t: nat :| t < |s.handlers| && Creating(s.handlers[t]) && s.handlers[t].user !in s.accounts;
    assert HandlerOk(s, s.handlers[t]);
    var p := s;
    acts := [];
    while !p.handlers[t].Finished?
      invariant OnlyAdvances(acts) && p == After(s, acts) && p.accounts == s.accounts
      invariant |p.handlers| == |s.handlers| && |p.sessions| == |s.sessions|
      invariant if p.handlers[t].Finished? then ClaimsFalsely(s, p)
                else Creating(p.handlers[t]) && p.handlers[t].user == s.handlers[t].user
                     && p.handlers[t].sid == s.handlers[t].sid && p.messages == s.messages
      decreases match p.handlers[t] case CreateCheck(_, _) => 3 case CreateInsert(_, _) => 2
                                    case CreateConfirm(_, _) => 1 case _ => 0
    {
      var a := Advance(t, false);
      assert (acts + [a])[..|acts|] == acts;
      p := Apply(p, a);
      acts := acts + [a];
      if p.handlers[t].Finished? {
        assert p.messages[|s.messages|].CreateReply?;
      }
    }
  }

  /** A success that nothing backs: some continuation by the running handlers sends one if and only
      if a create is running for a pair that is not in the table. */
  lemma {:induction false} FalseSuccessIff(s: State)
    requires Inv(s)
    ensures (exists acts | OnlyAdvances(acts) :: ClaimsFalsely(s, After(s, acts))) <==> CreatesMissing(s)
  {
    if CreatesMissing(s) {
      var acts := MissingIsClaimed(s);
    }
    if acts :| OnlyAdvances(acts) && ClaimsFalsely(s, After(s, acts)) {
      RepliesAnswerRunning(s, acts);
      var s' := After(s, acts);
      var i :| |s.messages| <= i < |s'.messages| && s'.messages[i].CreateReply?
               && s'.messages[i].request !in s'.accounts;
      var t :| 0 <= t < |s.handlers| && Creating(s.handlers[t]) && s.handlers[t].user == s'.messages[i].request;
      assert s.handlers[t].user !in s.accounts;
    }
  }

  // ---- What create replies claim when every INSERT works ----

  predicate InsertsWork(acts: seq<Action>) {
    forall i | 0 <= i < |acts| :: acts[i].Advance? && acts[i].ok
  }

  /** The create of handler `t` is for a missing pair and will not store it: it has inserted in vain,
      its id is taken, or another create may still take it for another pair. */
  predicate InVain(s: State, t: nat) {
    && t < |s.handlers| && Creating(s.handlers[t]) && s.handlers[t].user !in s.accounts
    && (|| s.handlers[t].CreateConfirm?
        || (s.handlers[t].CreateCheck?
            && (HasId(s.accounts, s.handlers[t].user.id)
                || exists u: nat | u < |s.handlers| :: TakesId(s, u, s.handlers[t].user))))
  }

  /** Handler `u` may still insert the id of `user`, with another password. */
  predicate TakesId(s: State, u: nat, user: Account) {
    MayInsert(s, u) && s.handlers[u].user.id == user.id && s.handlers[u].user != user
  }

  /** Where a create was in `s` tells where it can be in `p`. */
  predicate Proceeds(s: State, p: State, t: nat)
    requires t < |s.handlers| && t < |p.handlers|
  {
    match p.handlers[t]
    case CreateCheck(_, _) => s.handlers[t] == p.handlers[t]
    case CreateInsert(_, user) => MayInsert(s, t) && s.handlers[t].user == user
    case CreateConfirm(_, user) => s.handlers[t] == p.handlers[t] || (Creating(s.handlers[t]) && user in p.accounts)
    case _ => true
  }

  /** Account `a` was there in `s`, or a create of `s` that could insert it has done so. */
  predicate Stored(s: State, a: Account) {
    a in s.accounts
    || exists u: nat | u < |s.handlers| :: MayInsert(s, u) && s.handlers[u].user == a
  }

  /** Reply `m` is backed, or answers a create that was in vain. */
  predicate Answers(s: State, p: State, m: Message) {
    m.CreateReply? ==>
      || m.request in p.accounts
      || exists t: nat | t < |s.handlers| ::
           && Creating(s.handlers[t]) && s.handlers[t].user == m.request
           && (s.handlers[t].CreateConfirm? || (s.handlers[t].CreateCheck? && HasId(p.accounts, m.request.id)))
  }

  ghost predicate Working(s: State, p: State) {
    && |p.handlers| == |s.handlers| && s.accounts <= p.accounts && |s.messages| <= |p.messages|
    && (forall t: nat | t < |s.handlers| :: Proceeds(s, p, t))
    && (forall a <- p.accounts :: Stored(s, a))
    && (forall i | |s.messages| <= i < |p.messages| :: Answers(s, p, p.messages[i]))
  }

  lemma {:induction false} WorkingStart(s: State)
    ensures Working(s, s)
  {
    forall t: nat | t < |s.handlers| ensures Proceeds(s, s, t) {
      assert s.handlers[t].CreateInsert? ==> MayInsert(s, t);
    }
  }

  lemma {:induction false} HasIdGrows(accounts: seq<Account>, accounts': seq<Account>, id: string)
    requires accounts <= accounts' && HasId(accounts, id)
    ensures HasId(accounts', id)
  {
    var x :| x in accounts && x.id == id;
    assert x in accounts';
  }

  /** What holds of the accounts and the earlier replies goes on to hold as the table grows. */
  lemma {:induction false} GrownAnswers(s: State, p: State, p': State, m: Message)
    requires Answers(s, p, m) && p.accounts <= p'.accounts
    ensures Answers(s, p', m)
  {
    if m.CreateReply? && m.request !in p'.accounts {
      assert m.request !in p.accounts;
      var t: nat :| t < |s.handlers| && Creating(s.handlers[t]) && s.handlers[t].user == m.request
                    && (s.handlers[t].CreateConfirm?
                        || (s.handlers[t].CreateCheck? && HasId(p.accounts, m.request.id)));
      if !s.handlers[t].CreateConfirm? {
        HasIdGrows(p.accounts, p'.accounts, m.request.id);
      }
    }
  }

  lemma {:induction false} WorkingHandlers(s: State, p: State, t: nat)
    requires Working(s, p) && Enabled(p, Advance(t, true))
    ensures forall u: nat | u < |s.handlers| :: Proceeds(s, Apply(p, Advance(t, true)), u)
  {
    var p' := Apply(p, Advance(t, true));
    forall u: nat | u < |s.handlers| ensures Proceeds(s, p', u) {
      assert Proceeds(s, p, u);
      if u == t && p.handlers[t].CreateCheck? && p'.handlers[t].CreateInsert? {
        if HasId(s.accounts, p.handlers[t].user.id) {
          HasIdGrows(s.accounts, p.accounts, p.handlers[t].user.id);
        }
      }
    }
  }

  lemma {:induction false} WorkingAccounts(s: State, p: State, t: nat)
    requires Working(s, p) && Enabled(p, Advance(t, true))
    ensures forall a <- Apply(p, Advance(t, true)).accounts :: Stored(s, a)
  {
    var p' := Apply(p, Advance(t, true));
    forall a <- p'.accounts ensures Stored(s, a) {
      if a in p.accounts {
        assert Stored(s, a);
      } else {
        assert Proceeds(s, p, t);
      }
    }
  }

  lemma {:induction false} WorkingReplies(s: State, p: State, t: nat)
    requires Working(s, p) && Enabled(p, Advance(t, true))
    ensures var p' := Apply(p, Advance(t, true));
            forall i | |s.messages| <= i < |p'.messages| :: Answers(s, p', p'.messages[i])
  {
    var p' := Apply(p, Advance(t, true));
    forall i | |s.messages| <= i < |p'.messages| ensures Answers(s, p', p'.messages[i]) {
      if i < |p.messages| {
        GrownAnswers(s, p, p', p.messages[i]);
      } else {
        assert Proceeds(s, p, t);
      }
    }
  }

  lemma {:induction false} WorkingRun(s: State, acts: seq<Action>)
    requires InsertsWork(acts)
    ensures Working(s, After(s, acts))
  {
    if acts == [] {
      WorkingStart(s);
    } else {
      var p, a := After(s, acts[..|acts| - 1]), acts[|acts| - 1];
      WorkingRun(s, acts[..|acts| - 1]);
      if Enabled(p, a) {
        WorkingHandlers(s, p, a.t);
        WorkingAccounts(s, p, a.t);
        WorkingReplies(s, p, a.t);
      }
    }
  }

  lemma {:induction false} FalseOnlyInVain(s: State, acts: seq<Action>)
    requires InsertsWork(acts) && ClaimsFalsely(s, After(s, acts))
    ensures exists t: nat :: InVain(s, t)
  {
    WorkingRun(s, acts);
    var p := After(s, acts);
    var i :| |s.messages| <= i < |p.messages| && p.messages[i].CreateReply? && p.messages[i].request !in p.accounts;
    var m := p.messages[i];
    assert Answers(s, p, m);
    var t: nat :| t < |s.handlers| && Creating(s.handlers[t]) && s.handlers[t].user == m.request
                  && (s.handlers[t].CreateConfirm?
                      || (s.handlers[t].CreateCheck? && HasId(p.accounts, m.request.id)));
    if s.handlers[t].CreateCheck? && !HasId(s.accounts, m.request.id) {
      var a :| a in p.accounts && a.id == m.request.id;
      assert Stored(s, a) && a !in s.accounts;
      var u: nat :| u < |s.handlers| && MayInsert(s, u) && s.handlers[u].user == a;
      assert TakesId(s, u, s.handlers[t].user);
    }
    assert InVain(s, t);
  }

  lemma {:induction false} WorksMore(s: State, acts: seq<Action>, t: nat)
    requires InsertsWork(acts) && Enabled(After(s, acts), Advance(t, true))
    ensures InsertsWork(acts + [Advance(t, true)])
    ensures After(s, acts + [Advance(t, true)]) == Apply(After(s, acts), Advance(t, true))
  {
    assert (acts + [Advance(t, true)])[..|acts|] == acts;
  }

  /** The next step of a create that finds its id taken, or confirms in vain, claims success falsely. */
  lemma {:induction false} ClaimsNow(s: State, acts: seq<Action>, t: nat) returns (acts': seq<Action>)
    requires InsertsWork(acts) && Enabled(After(s, acts), Advance(t, true))
    requires var p := After(s, acts);
             && p.messages == s.messages && Creating(p.handlers[t]) && p.handlers[t].user !in p.accounts
             && (p.handlers[t].CreateConfirm?
                 || (p.handlers[t].CreateCheck? && HasId(p.accounts, p.handlers[t].user.id)))
    ensures InsertsWork(acts') && ClaimsFalsely(s, After(s, acts'))
  {
    WorksMore(s, acts, t);
    acts' := acts + [Advance(t, true)];
    assert After(s, acts').messages[|s.messages|].CreateReply?;
  }

  /** Handler `u` takes the id before handler `t` checks it. */
  lemma {:induction false} TakesIdFirst(s: State, t: nat, u: nat) returns (acts: seq<Action>)
    requires Inv(s) && t < |s.handlers| && s.handlers[t].CreateCheck? && s.handlers[t].user !in s.accounts
    requires TakesId(s, u, s.handlers[t].user) && !HasId(s.accounts, s.handlers[t].user.id)
    ensures InsertsWork(acts)
    ensures var p := After(s, acts);
            && p.messages == s.messages && |p.sessions| == |s.sessions| && |p.handlers| == |s.handlers|
            && p.handlers[t] == s.handlers[t]
            && p.handlers[t].user !in p.accounts && HasId(p.accounts, p.handlers[t].user.id)
  {
    assert HandlerOk(s, s.handlers[u]);
    acts := [];
    if s.handlers[u].CreateCheck? {
      WorksMore(s, acts, u);
      acts := acts + [Advance(u, true)];
    }
    HasIdPush(s.accounts, s.handlers[u].user, s.handlers[t].user.id);
    WorksMore(s, acts, u);
    acts := acts + [Advance(u, true)];
  }

  lemma {:induction false} InVainClaims(s: State, t: nat) returns (acts: seq<Action>)
    requires Inv(s) && InVain(s, t)
    ensures InsertsWork(acts) && ClaimsFalsely(s, After(s, acts))
  {
    assert HandlerOk(s, s.handlers[t]);
    acts := [];
    if s.handlers[t].CreateCheck? && !HasId(s.accounts, s.handlers[t].user.id) {
      var u: nat :| u < |s.handlers| && TakesId(s, u, s.handlers[t].user);
      acts := TakesIdFirst(s, t, u);
    }
    acts := ClaimsNow(s, acts, t);
  }

  /** With INSERTs that all work, the running handlers can claim a success that nothing backs if and
      only if some running create is in vain. */
  lemma {:induction false} FalseSuccessIffInVain(s: State)
    requires Inv(s)
    ensures (exists acts | InsertsWork(acts) :: ClaimsFalsely(s, After(s, acts))) <==> exists t: nat :: InVain(s, t)
  {
    if t: nat :| InVain(s, t) {
      var acts := InVainClaims(s, t);
    }
    if acts :| InsertsWork(acts) && ClaimsFalsely(s, After(s, acts)) {
      FalseOnlyInVain(s, acts);
    }
  }

  /** From any initial state that holds the id with another password, a request to create it has a
      run that stores nothing and replies success. */
  lemma {:induction false} TakenIdClaimsSuccess(s: State, sid: nat, a: Account) returns (ss: seq<State>)
    requires Initial(s) && sid < |s.sessions| && HasId(s.accounts, a.id) && a !in s.accounts
    ensures Run(ss) && ss[0] == s && ss[|ss| - 1].accounts == s.accounts
    ensures ss[|ss| - 1].messages == [CreateReply(sid, a, LoginHeader(true))]
  {
    assert StepsTo([s], 0);
    RunExtended([s], Request(CreateCheck(sid, a)));
    var s1 := Apply(s, Request(CreateCheck(sid, a)));
    RunExtended([s] + [s1], Advance(0, true));
    ss := [s] + [s1] + [Apply(s1, Advance(0, true))];
  }

  // ---- The object ----

  class LoginServer {
    var accounts: seq<Account>
    var sessions: seq<Session>
    var handlers: seq<Handler>
    var messages: seq<Message>

    ghost function Now(): State
      reads this
    {
      State(accounts, sessions, handlers, messages)
    }

    constructor (accounts: seq<Account>, n: nat)
      ensures Now() == State(accounts, seq(n, _ => Session(Wait, None)), [], []) && Initial(Now()) && Inv(Now())
    {
      this.accounts, sessions, handlers, messages := accounts, seq(n, _ => Session(Wait, None)), [], [];
    }

    /** HandleData starts the handler asynchronously. */
    method Start(handler: Handler)
      requires Enabled(Now(), Request(handler)) && Inv(Now())
      modifies this
      ensures Now() == Apply(old(Now()), Request(handler)) && Inv(Now())
    {
      StepInv(Now(), Request(handler));
      handlers := handlers + [handler];
    }

    method SendMessage(m: Message)
      modifies this`messages
      ensures messages == old(messages) + [m]
    {
      messages := messages + [m];
    }

    method RecvCreateAccountRequest(t: nat, ok: bool)
      requires Enabled(Now(), Advance(t, ok)) && Inv(Now())
      requires handlers[t].CreateCheck? || handlers[t].CreateInsert? || handlers[t].CreateConfirm?
      modifies this
      ensures Now() == Apply(old(Now()), Advance(t, ok)) && Inv(Now())
    {
      StepInv(Now(), Advance(t, ok));
      match handlers[t] {
        case CreateCheck(sid, user) =>
          if exists a <- accounts :: a.id == user.id {
            SendMessage(CreateReply(sid, user, NEW_HEADER.SetSuccess(false).SetLiteral("Already Exist ID")));
            handlers := handlers[t := Finished];
          } else {
            handlers := handlers[t := CreateInsert(sid, user)];
          }
        case CreateInsert(sid, user) =>
          if ok {
            accounts := accounts + [user];
          }
          handlers := handlers[t := CreateConfirm(sid, user)];
        case CreateConfirm(sid, user) =>
          var header := NEW_HEADER.SetSuccess(user in accounts);
          header := if user in accounts then header.SetLiteral("Success") else header.SetLiteral("Unknown Error");
          SendMessage(CreateReply(sid, user, header));
          handlers := handlers[t := Finished];
      }
    }

    method RecvLoginRequest(t: nat)
      requires Enabled(Now(), Advance(t, true)) && Inv(Now())
      requires handlers[t].LoginCheck? || handlers[t].LoginSetUser? || handlers[t].LoginSetState?
               || handlers[t].LoginAnnounce?
      modifies this
      ensures Now() == Apply(old(Now()), Advance(t, true)) && Inv(Now())
    {
      StepInv(Now(), Advance(t, true));
      match handlers[t] {
        case LoginCheck(sid, user) =>
          if user in accounts {
            handlers := handlers[t := LoginSetUser(sid, user)];
          } else {
            SendMessage(LoginReply(sid, user, LoginHeader(false)));
            handlers := handlers[t := Finished];
          }
        case LoginSetUser(sid, user) =>
          sessions := sessions[sid := sessions[sid].(user := Some(user))];
          handlers := handlers[t := LoginSetState(sid, user)];
        case LoginSetState(sid, user) =>
          sessions := sessions[sid := sessions[sid].(state := LoggedIn)];
          handlers := handlers[t := LoginAnnounce(sid, user)];
        case LoginAnnounce(sid, user) =>
          SendMessage(LoginBroadcast(user, LoginHeader(true)));
          handlers := handlers[t := Finished];
      }
    }

    method RecvMoveRequest(t: nat)
      requires Enabled(Now(), Advance(t, true)) && Inv(Now()) && handlers[t].MoveAnnounce?
      modifies this
      ensures Now() == Apply(old(Now()), Advance(t, true)) && Inv(Now())
    {
      StepInv(Now(), Advance(t, true));
      SendMessage(MoveBroadcast(ShownId(sessions[handlers[t].sid])));
      handlers := handlers[t := Finished];
    }
  }
}
