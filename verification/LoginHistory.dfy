/**
 * The history of each handler in a run of the login server: which steps it took, in which order, what
 * each of them changed, and what became of the request the handler was started for.
 */
module LoginHistory {
  import opened Bits
  import opened Options
  import opened Login
  import Wire

  /** Two states of a run, one step apart, and what the step did apart from moving handlers on. */
  datatype Change = Change(before: State, after: State)
  {
    predicate Quiet() {
      after == before.(handlers := after.handlers)
    }

    predicate Sends(m: Message) {
      after == before.(handlers := after.handlers, messages := before.messages + [m])
    }

    predicate Inserts(a: Account) {
      after == before.(handlers := after.handlers, accounts := before.accounts + [a])
    }

    predicate StoresUser(k: nat, user: Account) {
      && k < |before.sessions|
      && after == before.(handlers := after.handlers,
                          sessions := before.sessions[k := Session(before.sessions[k].state, Some(user))])
    }

    predicate LogsIn(k: nat) {
      && k < |before.sessions|
      && after == before.(handlers := after.handlers,
                          sessions := before.sessions[k := Session(LoggedIn, before.sessions[k].user)])
    }
  }

  predicate Moved(s: State, s': State, t: nat) {
    t < |s.handlers| && t < |s'.handlers| && s'.handlers[t] != s.handlers[t]
  }

  /** The steps of a run that handler `t` took, in their order. */
  function StepsOf(ss: seq<State>, t: nat): seq<Change> {
    if |ss| < 2 then []
    else
      StepsOf(ss[..|ss| - 1], t)
      + if Moved(ss[|ss| - 2], ss[|ss| - 1], t) then [Change(ss[|ss| - 2], ss[|ss| - 1])] else []
  }

  /** The request with which handler `t` came into the run. */
  function RequestOf(ss: seq<State>, t: nat): Handler
    requires |ss| > 0 && t < |ss[|ss| - 1].handlers|
  {
    if |ss| > 1 && t < |ss[|ss| - 2].handlers| then RequestOf(ss[..|ss| - 1], t) else ss[|ss| - 1].handlers[t]
  }

  // ---- What each request has to do ----

  /** The steps `cs` are the first ones of a create of `user` for session `sid`. */
  predicate CreateTrail(cs: seq<Change>, sid: nat, user: Account) {
    var answer := CreateReply(sid, user, Header(Wire.S_LOGIN, true, ""));
    && |cs| <= 3
    && (|cs| > 0 ==> if HasId(cs[0].before.accounts, user.id) then |cs| == 1 && cs[0].Sends(answer) else cs[0].Quiet())
    && (|cs| > 1 ==> cs[1].Quiet() || cs[1].Inserts(user))
    && (|cs| > 2 ==> cs[2].Sends(answer))
  }

  predicate CreateEnds(cs: seq<Change>, user: Account) {
    |cs| == 3 || (|cs| == 1 && HasId(cs[0].before.accounts, user.id))
  }

  /** The steps `cs` are the first ones of a login as `user` on session `sid`. */
  predicate LoginTrail(cs: seq<Change>, sid: nat, user: Account) {
    && |cs| <= 4
    && (|cs| > 0 ==> if user in cs[0].before.accounts then cs[0].Quiet()
                     else && |cs| == 1
                          && cs[0].Sends(LoginReply(sid, user, Header(Wire.S_LOGIN, false, "Unkwon Account"))))
    && (|cs| > 1 ==> cs[1].StoresUser(sid, user))
    && (|cs| > 2 ==> cs[2].LogsIn(sid))
    && (|cs| > 3 ==> cs[3].Sends(LoginBroadcast(user, Header(Wire.S_LOGIN, true, ""))))
  }

  predicate LoginEnds(cs: seq<Change>, user: Account) {
    |cs| == 4 || (|cs| == 1 && user !in cs[0].before.accounts)
  }

  /** The one step of a move shows what its session stores at that moment. */
  predicate MoveTrail(cs: seq<Change>, sid: nat) {
    && |cs| <= 1
    && (|cs| > 0 ==> && sid < |cs[0].before.sessions|
                     && cs[0].Sends(MoveBroadcast(ShownId(cs[0].before.sessions[sid]))))
  }

  /** Where a handler stands after the steps `cs`. */
  predicate At(handler: Handler, cs: seq<Change>, request: Handler) {
    match request
    case CreateCheck(sid, user) =>
      if CreateEnds(cs, user) then handler.Finished?
      else handler == if |cs| == 0 then request else if |cs| == 1 then CreateInsert(sid, user)
                      else CreateConfirm(sid, user)
    case LoginCheck(sid, user) =>
      if LoginEnds(cs, user) then handler.Finished?
      else handler == if |cs| == 0 then request else if |cs| == 1 then LoginSetUser(sid, user)
                      else if |cs| == 2 then LoginSetState(sid, user) else LoginAnnounce(sid, user)
    case MoveAnnounce(_) => if |cs| == 1 then handler.Finished? else handler == request
    case _ => false
  }

  predicate Trail(cs: seq<Change>, request: Handler) {
    match request
    case CreateCheck(sid, user) => CreateTrail(cs, sid, user)
    case LoginCheck(sid, user) => LoginTrail(cs, sid, user)
    case MoveAnnounce(sid) => MoveTrail(cs, sid)
    case _ => false
  }

  lemma {:induction false} CreateAdvances(s: State, t: nat, ok: bool, cs: seq<Change>, request: Handler)
    requires Enabled(s, Advance(t, ok)) && request.CreateCheck?
    requires Trail(cs, request) && At(s.handlers[t], cs, request)
    ensures var s' := Apply(s, Advance(t, ok));
            Trail(cs + [Change(s, s')], request) && At(s'.handlers[t], cs + [Change(s, s')], request)
  {
  }

  lemma {:induction false} LoginAdvances(s: State, t: nat, ok: bool, cs: seq<Change>, request: Handler)
    requires Enabled(s, Advance(t, ok)) && request.LoginCheck?
    requires Trail(cs, request) && At(s.handlers[t], cs, request)
    ensures var s' := Apply(s, Advance(t, ok));
            Trail(cs + [Change(s, s')], request) && At(s'.handlers[t], cs + [Change(s, s')], request)
  {
  }

  lemma {:induction false} MoveAdvances(s: State, t: nat, ok: bool, cs: seq<Change>, request: Handler)
    requires Enabled(s, Advance(t, ok)) && request.MoveAnnounce?
    requires Trail(cs, request) && At(s.handlers[t], cs, request)
    ensures var s' := Apply(s, Advance(t, ok));
            Trail(cs + [Change(s, s')], request) && At(s'.handlers[t], cs + [Change(s, s')], request)
  {
  }

  /** A step is the arrival of a request, or moves exactly one handler. */
  lemma {:induction false} OneMoves(s: State, a: Action)
    requires Enabled(s, a)
    ensures var s' := Apply(s, a);
            match a
            case Request(h) =>
              Change(s, s').Quiet() && s'.handlers == s.handlers + [h] && forall t: nat :: !Moved(s, s', t)
            case Advance(u, _) => |s'.handlers| == |s.handlers| && forall t: nat :: Moved(s, s', t) <==> t == u
  {
  }

  /** The last step of a run, for handler `t`. */
  lemma {:induction false} LastStep(ss: seq<State>, a: Action, t: nat)
    requires |ss| > 1 && Enabled(ss[|ss| - 2], a) && ss[|ss| - 1] == Apply(ss[|ss| - 2], a)
    requires t < |ss[|ss| - 2].handlers|
    ensures t < |ss[|ss| - 1].handlers| && RequestOf(ss, t) == RequestOf(ss[..|ss| - 1], t)
    ensures StepsOf(ss, t) == StepsOf(ss[..|ss| - 1], t)
                              + if a.Advance? && a.t == t then [Change(ss[|ss| - 2], ss[|ss| - 1])] else []
    ensures !(a.Advance? && a.t == t) ==> StepsOf(ss, t) == StepsOf(ss[..|ss| - 1], t)
  {
    OneMoves(ss[|ss| - 2], a);
  }

  /** A handler that is not there yet has taken no step. */
  lemma {:induction false} NoStepsYet(ss: seq<State>, t: nat)
    requires Run(ss) && t >= |ss[|ss| - 1].handlers|
    ensures StepsOf(ss, t) == []
  {
    RunPrefix(ss);
    if |ss| > 1 {
      var a :| Enabled(ss[|ss| - 2], a) && ss[|ss| - 1] == Apply(ss[|ss| - 2], a);
      OneMoves(ss[|ss| - 2], a);
      NoStepsYet(ss[..|ss| - 1], t);
    }
  }

  /** Every handler of a run has done what its request asks, in order, up to where it stands. */
  lemma {:induction false} HandlersKeepToTrail(ss: seq<State>, t: nat)
    requires Run(ss) && t < |ss[|ss| - 1].handlers|
    ensures Trail(StepsOf(ss, t), RequestOf(ss, t))
    ensures At(ss[|ss| - 1].handlers[t], StepsOf(ss, t), RequestOf(ss, t))
  {
    RunPrefix(ss);
    if |ss| > 1 {
      var prefix, s := ss[..|ss| - 1], ss[|ss| - 2];
      var a :| Enabled(s, a) && ss[|ss| - 1] == Apply(s, a);
      OneMoves(s, a);
      if t < |s.handlers| {
        HandlersKeepToTrail(prefix, t);
        LastStep(ss, a, t);
        if a.Advance? && a.t == t {
          match RequestOf(prefix, t)
          case CreateCheck(_, _) => CreateAdvances(s, t, a.ok, StepsOf(prefix, t), RequestOf(prefix, t));
          case LoginCheck(_, _) => LoginAdvances(s, t, a.ok, StepsOf(prefix, t), RequestOf(prefix, t));
          case MoveAnnounce(_) => MoveAdvances(s, t, a.ok, StepsOf(prefix, t), RequestOf(prefix, t));
        }
      } else {
        NoStepsYet(prefix, t);
      }
    }
  }

  // ---- What a finished handler has done ----

  /** A finished login whose pair was in the table at its check has stored the user, logged its session
      in and announced it, in that order; any other has only told its own session of the failure. */
  lemma {:induction false} LoginOutcome(ss: seq<State>, t: nat, sid: nat, user: Account)
    requires Run(ss) && t < |ss[|ss| - 1].handlers| && ss[|ss| - 1].handlers[t].Finished?
    requires RequestOf(ss, t) == LoginCheck(sid, user)
    ensures var cs := StepsOf(ss, t);
            |cs| > 0 && if user in cs[0].before.accounts
                        then |cs| == 4 && cs[0].Quiet() && cs[1].StoresUser(sid, user) && cs[2].LogsIn(sid)
                             && cs[3].Sends(LoginBroadcast(user, Header(Wire.S_LOGIN, true, "")))
                        else |cs| == 1
                             && cs[0].Sends(LoginReply(sid, user, Header(Wire.S_LOGIN, false, "Unkwon Account")))
  {
    HandlersKeepToTrail(ss, t);
  }

  /** A finished create has sent one reply, to the session of its request: at once if the id was taken,
      and otherwise after an INSERT that stored the pair or nothing. */
  lemma {:induction false} CreateOutcome(ss: seq<State>, t: nat, sid: nat, user: Account)
    requires Run(ss) && t < |ss[|ss| - 1].handlers| && ss[|ss| - 1].handlers[t].Finished?
    requires RequestOf(ss, t) == CreateCheck(sid, user)
    ensures var cs, answer := StepsOf(ss, t), CreateReply(sid, user, Header(Wire.S_LOGIN, true, ""));
            |cs| > 0 && if HasId(cs[0].before.accounts, user.id)
                        then |cs| == 1 && cs[0].Sends(answer)
                        else |cs| == 3 && cs[0].Quiet() && (cs[1].Quiet() || cs[1].Inserts(user)) && cs[2].Sends(answer)
  {
    HandlersKeepToTrail(ss, t);
  }

  /** A handler that is not finished can always take its next step, and has taken at most three. */
  lemma {:induction false} NeverStuck(ss: seq<State>, t: nat, ok: bool)
    requires Run(ss) && t < |ss[|ss| - 1].handlers| && !ss[|ss| - 1].handlers[t].Finished?
    ensures Enabled(ss[|ss| - 1], Advance(t, ok)) && |StepsOf(ss, t)| <= 3
  {
    RunInv(ss);
    HandlersKeepToTrail(ss, t);
    assert HandlerOk(ss[|ss| - 1], ss[|ss| - 1].handlers[t]);
  }

  // ---- Which sessions are logged in ----

  /** Handler `t` is a login for session `k` that found its pair and has passed SetSessionState. */
  predicate LoggedInBy(ss: seq<State>, t: nat, k: nat)
    requires |ss| > 0 && t < |ss[|ss| - 1].handlers|
  {
    RequestOf(ss, t).LoginCheck? && RequestOf(ss, t).sid == k && |StepsOf(ss, t)| > 2
  }

  lemma {:induction false} StateStep(ss: seq<State>, a: Action, t: nat, k: nat)
    requires Run(ss) && |ss| > 1 && Enabled(ss[|ss| - 2], a) && ss[|ss| - 1] == Apply(ss[|ss| - 2], a)
    requires t < |ss[|ss| - 2].handlers| && k < |ss[|ss| - 2].sessions| == |ss[|ss| - 1].sessions|
    ensures t < |ss[|ss| - 1].handlers|
    ensures LoggedInBy(ss, t, k) <==>
              LoggedInBy(ss[..|ss| - 1], t, k)
              || (a.Advance? && a.t == t
                  && ss[|ss| - 2].handlers[t].LoginSetState? && ss[|ss| - 2].handlers[t].sid == k)
  {
    RunPrefix(ss);
    HandlersKeepToTrail(ss[..|ss| - 1], t);
    HandlersKeepToTrail(ss, t);
    LastStep(ss, a, t);
  }

  /** A session is in state Login if some login for it has passed SetSessionState, and in state Wait if
      none has. */
  lemma {:induction false} LoggedInIff(ss: seq<State>, k: nat)
    requires Run(ss) && k < |ss[0].sessions|
    ensures var s := ss[|ss| - 1];
            && |s.sessions| == |ss[0].sessions|
            && s.sessions[k].state
               == if exists t: nat | t < |s.handlers| :: LoggedInBy(ss, t, k) then LoggedIn else Wait
  {
    RunPrefix(ss);
    RunKeepsSessions(ss);
    if |ss| == 1 {
      assert ss[0].sessions[k] in ss[0].sessions;
    } else {
      var prefix, s, s' := ss[..|ss| - 1], ss[|ss| - 2], ss[|ss| - 1];
      LoggedInIff(prefix, k);
      var a :| Enabled(s, a) && s' == Apply(s, a);
      forall t: nat | t < |s.handlers|
        ensures t < |s'.handlers|
        ensures LoggedInBy(ss, t, k) <==>
                  LoggedInBy(prefix, t, k)
                  || (a.Advance? && a.t == t && s.handlers[t].LoginSetState? && s.handlers[t].sid == k)
      {
        StateStep(ss, a, t, k);
      }
      forall t: nat | |s.handlers| <= t < |s'.handlers| ensures !LoggedInBy(ss, t, k) {
        OneMoves(s, a);
        NoStepsYet(prefix, t);
      }
    }
  }

  // ---- The messages of a run are the answers of its finished handlers ----

  /** The message that a finished handler owes for its request, given the steps it took. */
  function Answer(cs: seq<Change>, request: Handler): Message {
    match request
    case LoginCheck(sid, user) =>
      if |cs| > 1 then LoginBroadcast(user, Header(Wire.S_LOGIN, true, ""))
      else LoginReply(sid, user, Header(Wire.S_LOGIN, false, "Unkwon Account"))
    case CreateCheck(sid, user) => CreateReply(sid, user, Header(Wire.S_LOGIN, true, ""))
    case MoveAnnounce(sid) =>
      MoveBroadcast(if |cs| > 0 && sid < |cs[0].before.sessions| then ShownId(cs[0].before.sessions[sid]) else None)
    case _ => MoveBroadcast(None)
  }

  function Owed(handler: Handler, cs: seq<Change>, request: Handler): multiset<Message> {
    if handler.Finished? then multiset{Answer(cs, request)} else multiset{}
  }

  function AnswerOf(ss: seq<State>, t: nat): multiset<Message>
    requires |ss| > 0 && t < |ss[|ss| - 1].handlers|
  {
    Owed(ss[|ss| - 1].handlers[t], StepsOf(ss, t), RequestOf(ss, t))
  }

  /** The answers of the finished ones among the first `n` handlers. */
  function Answers(ss: seq<State>, n: nat): multiset<Message>
    requires |ss| > 0 && n <= |ss[|ss| - 1].handlers|
  {
    if n == 0 then multiset{} else Answers(ss, n - 1) + AnswerOf(ss, n - 1)
  }

  /** What a step appends to the messages. */
  function Appended(s: State, s': State): multiset<Message> {
    if |s.messages| <= |s'.messages| then multiset(s'.messages[|s.messages|..]) else multiset{}
  }

  function If(c: bool, m: multiset<Message>): multiset<Message> {
    if c then m else multiset{}
  }

  lemma {:induction false} Regroup(p: multiset<Message>, q: multiset<Message>, m: multiset<Message>, b: bool, c: bool)
    requires !(b && c)
    ensures (p + If(b, m)) + (q + If(c, m)) == (p + q) + If(b || c, m)
  {
  }

  lemma {:induction false} SentIsAppended(c: Change, m: Message)
    requires c.Sends(m)
    ensures Appended(c.before, c.after) == multiset{m}
  {
    assert c.after.messages[|c.before.messages|..] == [m];
  }

  lemma {:induction false} AnswerSent(s: State, t: nat, ok: bool, cs: seq<Change>, request: Handler)
    requires Enabled(s, Advance(t, ok))
    requires Trail(cs, request) && At(s.handlers[t], cs, request)
    requires var c := Change(s, Apply(s, Advance(t, ok)));
             Trail(cs + [c], request) && At(c.after.handlers[t], cs + [c], request)
    ensures var c := Change(s, Apply(s, Advance(t, ok)));
            if c.after.handlers[t].Finished? then c.Sends(Answer(cs + [c], request)) else c.after.messages == s.messages
  {
  }

  /** A handler that takes a step sends what it owes, if the step is its last. */
  lemma {:induction false} StepOwed(s: State, t: nat, ok: bool, cs: seq<Change>, request: Handler)
    requires Enabled(s, Advance(t, ok))
    requires Trail(cs, request) && At(s.handlers[t], cs, request)
    requires var c := Change(s, Apply(s, Advance(t, ok)));
             Trail(cs + [c], request) && At(c.after.handlers[t], cs + [c], request)
    ensures var c := Change(s, Apply(s, Advance(t, ok)));
            Owed(c.after.handlers[t], cs + [c], request)
            == Owed(s.handlers[t], cs, request) + Appended(c.before, c.after)
  {
    var c := Change(s, Apply(s, Advance(t, ok)));
    AnswerSent(s, t, ok, cs, request);
    if c.after.handlers[t].Finished? {
      SentIsAppended(c, Answer(cs + [c], request));
    }
  }

  lemma {:induction false} StepAnswers(ss: seq<State>, a: Action, t: nat)
    requires Run(ss) && |ss| > 1 && Enabled(ss[|ss| - 2], a) && ss[|ss| - 1] == Apply(ss[|ss| - 2], a)
    requires t < |ss[|ss| - 2].handlers|
    ensures t < |ss[|ss| - 1].handlers|
    ensures AnswerOf(ss, t)
            == AnswerOf(ss[..|ss| - 1], t) + If(a.Advance? && a.t == t, Appended(ss[|ss| - 2], ss[|ss| - 1]))
  {
    var prefix := ss[..|ss| - 1];
    RunPrefix(ss);
    OneMoves(ss[|ss| - 2], a);
    HandlersKeepToTrail(prefix, t);
    HandlersKeepToTrail(ss, t);
    LastStep(ss, a, t);
    if a.Advance? && a.t == t {
      StepOwed(ss[|ss| - 2], t, a.ok, StepsOf(prefix, t), RequestOf(prefix, t));
    }
  }

  /** One of the handlers below `n` has one more answer, or none has. */
  lemma {:induction false} AnswersStep(ss: seq<State>, prefix: seq<State>, n: nat, one: bool, u: nat,
                                       m: multiset<Message>)
    requires |ss| > 0 && |prefix| > 0 && n <= |ss[|ss| - 1].handlers| && n <= |prefix[|prefix| - 1].handlers|
    requires forall t: nat | t < n :: AnswerOf(ss, t) == AnswerOf(prefix, t) + If(one && u == t, m)
    ensures Answers(ss, n) == Answers(prefix, n) + If(one && u < n, m)
  {
    if n > 0 {
      AnswersStep(ss, prefix, n - 1, one, u, m);
      Regroup(Answers(prefix, n - 1), AnswerOf(prefix, n - 1), m, one && u < n - 1, one && u == n - 1);
    }
  }

  lemma {:induction false} AppendedLast(s: State, a: Action)
    requires Enabled(s, a)
    ensures var s' := Apply(s, a);
            multiset(s'.messages) == multiset(s.messages) + If(a.Advance?, Appended(s, s'))
  {
    var s' := Apply(s, a);
    assert s'.messages == s.messages + s'.messages[|s.messages|..];
  }

  lemma {:induction false} NewcomerOwesNothing(ss: seq<State>, a: Action)
    requires Run(ss) && |ss| > 1 && Enabled(ss[|ss| - 2], a) && ss[|ss| - 1] == Apply(ss[|ss| - 2], a)
    ensures var n, n' := |ss[|ss| - 2].handlers|, |ss[|ss| - 1].handlers|;
            n <= n' && Answers(ss, n') == Answers(ss, n)
  {
    OneMoves(ss[|ss| - 2], a);
    var n := |ss[|ss| - 2].handlers|;
    if a.Request? {
      assert AnswerOf(ss, n) == multiset{};
      assert Answers(ss, n + 1) == Answers(ss, n) + AnswerOf(ss, n);
    }
  }

  lemma {:induction false} AnswersGrow(ss: seq<State>, prefix: seq<State>, a: Action)
    requires Run(ss) && |ss| > 1 && Enabled(ss[|ss| - 2], a) && ss[|ss| - 1] == Apply(ss[|ss| - 2], a)
    requires prefix == ss[..|ss| - 1]
    ensures Answers(ss, |ss[|ss| - 1].handlers|)
            == Answers(prefix, |ss[|ss| - 2].handlers|) + If(a.Advance?, Appended(ss[|ss| - 2], ss[|ss| - 1]))
  {
    var n, m := |ss[|ss| - 2].handlers|, Appended(ss[|ss| - 2], ss[|ss| - 1]);
    NewcomerOwesNothing(ss, a);
    forall t: nat | t < n ensures AnswerOf(ss, t) == AnswerOf(prefix, t) + If(a.Advance? && a.t == t, m) {
      StepAnswers(ss, a, t);
    }
    match a
    case Request(_) => AnswersStep(ss, prefix, n, false, 0, m);
    case Advance(t, _) => AnswersStep(ss, prefix, n, true, t, m);
  }

  ghost predicate Balanced(ss: seq<State>)
    requires |ss| > 0
  {
    multiset(ss[|ss| - 1].messages) == Answers(ss, |ss[|ss| - 1].handlers|)
  }

  lemma {:induction false} StaysBalanced(ss: seq<State>, prefix: seq<State>, a: Action)
    requires Run(ss) && |ss| > 1 && Enabled(ss[|ss| - 2], a) && ss[|ss| - 1] == Apply(ss[|ss| - 2], a)
    requires prefix == ss[..|ss| - 1] && Balanced(prefix)
    ensures Balanced(ss)
  {
    AnswersGrow(ss, prefix, a);
    AppendedLast(ss[|ss| - 2], a);
  }

  /** In every run the messages are, counted, exactly the answers of the finished handlers: each
      finished request has one answer, its own, and no message is anything else. */
  lemma {:induction false} MessagesAreAnswers(ss: seq<State>)
    requires Run(ss)
    ensures multiset(ss[|ss| - 1].messages) == Answers(ss, |ss[|ss| - 1].handlers|)
  {
    RunPrefix(ss);
    if |ss| > 1 {
      var prefix, s := ss[..|ss| - 1], ss[|ss| - 2];
      MessagesAreAnswers(prefix);
      var a :| Enabled(s, a) && ss[|ss| - 1] == Apply(s, a);
      StaysBalanced(ss, prefix, a);
    }
  }

  predicate OnlyMoved(s: State, s': State, t: nat) {
    forall u: nat | u < |s.handlers| :: Moved(s, s', u) <==> u == t
  }

  /** Every change of the account table, of a session or of the messages is a step of one handler. */
  lemma {:induction false} EveryChangeIsAHandlers(ss: seq<State>, j: nat)
    requires Run(ss) && j + 1 < |ss|
    ensures var c := Change(ss[j], ss[j + 1]);
            if |c.after.handlers| > |c.before.handlers|
            then c.Quiet() && c.after.handlers[..|c.before.handlers|] == c.before.handlers
            else |c.after.handlers| == |c.before.handlers|
                 && exists t: nat :: c in StepsOf(ss, t) && OnlyMoved(ss[j], ss[j + 1], t)
  {
    RunPrefix(ss);
    var prefix := ss[..|ss| - 1];
    if j + 2 < |ss| {
      EveryChangeIsAHandlers(prefix, j);
      assert prefix[j] == ss[j] && prefix[j + 1] == ss[j + 1];
      forall t: nat, c | c in StepsOf(prefix, t) ensures c in StepsOf(ss, t) {
      }
    } else {
      var a :| Enabled(ss[j], a) && ss[j + 1] == Apply(ss[j], a);
      OneMoves(ss[j], a);
      if a.Advance? {
        assert Change(ss[j], ss[j + 1]) in StepsOf(ss, a.t);
      }
    }
  }
}
