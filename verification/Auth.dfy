/**
  The session of the console: restoring it, signing in and out, and losing it to a 401, with
  every request free to complete at any time.

  The machine is a total step function over events; a completion that no attempt waits for
  leaves the state as it is.  Proved of every interleaving: a superseded attempt never changes
  anything (`SupersededByAny`), nothing in flight signs in again after a sign-out
  (`SignOutHolds`), a token is only ever cleared by its own requests (`ClearedOnlyByItsOwn`),
  whatever is late leaves a newer session alone (`LateArrivals`), and a session that resumes a
  draft is verified only for the same name, kind, environment and application
  (`RecoveryKeepsScope`).
*/
module Auth {
  import opened JsonSyntax

  datatype Identity = Identity(name: string, kind: string, env: string, app: string, authMethod: string)

  predicate SameScope(a: Identity, b: Identity) {
    a.name == b.name && a.kind == b.kind && a.env == b.env && a.app == b.app
  }

  /** The console takes the empty string for no token. */
  type Token = s: string | s != "" witness "t"

  // ---- the token store ----------------------------------------------------------------------------------

  /** An identity remembered together with the token it was established for. */
  datatype Cached = Cached(token: Option<Token>, identity: Identity)

  /** The token in memory, and what session storage holds if it works at all. */
  datatype Store = Store(mem: Option<Token>, works: bool, kept: Option<Token>, cached: Option<Cached>)

  function TokenOf(st: Store): Option<Token> {
    if st.mem.Some? then st.mem else if st.works then st.kept else None
  }

  function WithToken(st: Store, token: Token): Store {
    if st.works then st.(mem := Some(token), kept := Some(token), cached := None) else st.(mem := Some(token))
  }

  function Cleared(st: Store): Store {
    if st.works then st.(mem := None, kept := None, cached := None) else st.(mem := None)
  }

  function WithIdentity(st: Store, id: Identity): Store {
    if st.works then st.(cached := Some(Cached(TokenOf(st), id))) else st
  }

  function LoadedIdentity(st: Store): Option<Identity> {
    if st.works && st.cached.Some? && st.cached.value.token == TokenOf(st) then Some(st.cached.value.identity) else None
  }

  /** The store as the console keeps it, in a variable and in session storage. */
  class TokenStore {
    var memToken: Option<Token>
    const works: bool
    var storedToken: Option<Token>
    var storedIdentity: Option<Cached>

    function Now(): Store
      reads this
    {
      Store(memToken, works, storedToken, storedIdentity)
    }

    constructor (works: bool, stored: Option<Token>, identity: Option<Cached>)
      ensures Now() == Store(None, works, stored, identity)
    {
      this.works := works;
      memToken, storedToken, storedIdentity := None, stored, identity;
    }

    method SetToken(token: Token)
      modifies this
      ensures Now() == WithToken(old(Now()), token)
      ensures TokenOf(Now()) == Some(token) && LoadedIdentity(Now()).None?
    {
      memToken := Some(token);
      if works {
        storedToken := Some(token);
        storedIdentity := None;
      }
    }

    /** Reading the token brings it back into memory, which changes nothing that can be read. */
    method GetToken() returns (token: Option<Token>)
      modifies this
      ensures token == TokenOf(old(Now())) == TokenOf(Now())
      ensures LoadedIdentity(Now()) == LoadedIdentity(old(Now()))
      ensures Cleared(Now()) == Cleared(old(Now()))
    {
      if memToken.Some? {
        return memToken;
      }
      memToken := if works then storedToken else None;
      return memToken;
    }

    method ClearToken()
      modifies this
      ensures Now() == Cleared(old(Now()))
      ensures TokenOf(Now()).None? && LoadedIdentity(Now()).None?
    {
      memToken := None;
      if works {
        storedToken := None;
        storedIdentity := None;
      }
    }

    /** Clears the token only if it is still the one the rejected request carried. */
    method ExpireToken(requestToken: Option<Token>) returns (announced: bool)
      modifies this
      ensures announced == (TokenOf(old(Now())) == requestToken)
      ensures !announced ==> TokenOf(Now()) == TokenOf(old(Now())) && LoadedIdentity(Now()) == LoadedIdentity(old(Now()))
      ensures announced ==> Now() == Cleared(old(Now()))
    {
      var current := GetToken();
      if current != requestToken {
        return false;
      }
      ClearToken();
      announced := true;
    }

    method StoreIdentity(id: Identity)
      modifies this
      ensures TokenOf(Now()) == TokenOf(old(Now()))
      ensures works ==> LoadedIdentity(Now()) == Some(id)
    {
      var token := GetToken();
      if works {
        storedIdentity := Some(Cached(token, id));
      }
    }
  }

  // ---- attempts -----------------------------------------------------------------------------------------------

  /** A session check under way: the token it checks and the generation it began with. */
  datatype Restore = Restore(token: Token, mine: nat, cancelled: bool, done: bool)

  datatype Phase = Asking | Verifying(answer: Identity) | Finished

  /** A sign-in under way, perhaps to resume the draft of an identity. */
  datatype Login = Login(token: Token, wanted: Option<Identity>, mine: nat, phase: Phase)

  datatype Session = Session(authenticated: bool, signedOut: bool)

  datatype State = State(store: Store, generation: nat, identity: Option<Identity>, session: Session, ready: bool,
                         pending: bool, verificationPending: bool, verifying: bool, recovery: Option<Identity>,
                         restores: seq<Restore>, logins: seq<Login>)

  datatype Event =
    | RunRestore
    | RestoreOk(restore: nat, me: Identity)
    | RestoreFailed(restore: nat, aborted: bool, rejected: bool)
    | LoginStart(token: Token, wanted: Option<Identity>)
    | LoginAnswered(login: nat, answer: Identity)
    | LoginRefused(login: nat)
    | LoginVerified(login: nat, me: Identity)
    | LoginUnverified(login: nat, aborted: bool)
    | Unauthorized(requestToken: Option<Token>, unsaved: bool)
    | SignOut

  function Init(store: Store): State {
    State(store, 0, None, Session(false, false), false, false, false, false, None, [], [])
  }

  // ---- session checks -------------------------------------------------------------------------------------------

  function CancelAll(rs: seq<Restore>): (r: seq<Restore>)
    ensures |r| == |rs| && forall i :: 0 <= i < |rs| ==> r[i] == rs[i].(cancelled := true)
  {
    seq(|rs|, i requires 0 <= i < |rs| => rs[i].(cancelled := true))
  }

  /** The effect runs again: the check before it is cancelled, and a stored token is checked. */
  function RunsRestore(s: State): State {
    var t := s.(generation := s.generation + 1, restores := CancelAll(s.restores));
    if TokenOf(s.store).None? then t.(session := Session(false, false), ready := true)
    else t.(verifying := true, restores := t.restores + [Restore(TokenOf(s.store).value, t.generation, false, false)])
  }

  /** Whether a check may still decide the session. */
  predicate RestoreCurrent(s: State, r: Restore) {
    !r.cancelled && s.generation == r.mine && TokenOf(s.store) == Some(r.token)
  }

  /** What happens at the end of every check that has not been superseded. */
  function Settled(s: State, r: Restore): State {
    if !r.cancelled && s.generation == r.mine then s.(ready := !s.pending, verifying := false) else s
  }

  function Restored(s: State, me: Identity): State {
    if s.recovery.Some? && !SameScope(me, s.recovery.value) then
      s.(store := Cleared(s.store), identity := s.recovery, session := Session(false, false), pending := false,
         verificationPending := false)
    else
      s.(store := WithIdentity(s.store, me), identity := Some(me), session := Session(true, false), pending := false,
         verificationPending := false, recovery := None)
  }

  function Rejected(s: State): State {
    s.(store := Cleared(s.store), identity := s.recovery, session := Session(false, false), pending := false,
       verificationPending := false)
  }

  /** The server could not be asked: the session stands, unverified if nothing is remembered of it. */
  function Unreachable(s: State): State {
    var cached := if s.pending then None else LoadedIdentity(s.store);
    var t := if cached.Some? then s.(identity := cached)
             else s.(pending := true, verificationPending := true, identity := s.recovery);
    t.(session := Session(true, false))
  }

  function RestoreEnds(s: State, i: nat): State
    requires i < |s.restores|
  {
    s.(restores := s.restores[i := s.restores[i].(done := true)])
  }

  // ---- signing in ----------------------------------------------------------------------------------------------------

  function LoginStarts(s: State, token: Token, wanted: Option<Identity>): State {
    var mine := s.generation + 1;
    s.(generation := mine, verifying := false, logins := s.logins + [Login(token, wanted, mine, Asking)])
  }

  function SetPhase(s: State, j: nat, phase: Phase): State
    requires j < |s.logins|
  {
    s.(logins := s.logins[j := s.logins[j].(phase := phase)])
  }

  function Answered(s: State, j: nat, answer: Identity): State
    requires j < |s.logins|
  {
    var l := s.logins[j];
    if s.generation != l.mine || (l.wanted.Some? && (answer.name != l.wanted.value.name || answer.kind != l.wanted.value.kind)) then
      SetPhase(s, j, Finished)
    else SetPhase(s, j, Verifying(answer)).(recovery := l.wanted, store := WithToken(s.store, l.token))
  }

  function Refused(s: State, j: nat): State
    requires j < |s.logins|
  {
    var t := SetPhase(s, j, Finished);
    if s.generation == s.logins[j].mine && TokenOf(s.store).None? then t.(ready := true) else t
  }

  predicate LoginCurrent(s: State, l: Login) {
    s.generation == l.mine && TokenOf(s.store) == Some(l.token)
  }

  function Verified(s: State, j: nat, me: Identity): State
    requires j < |s.logins|
  {
    var l := s.logins[j];
    var t := SetPhase(s, j, Finished);
    if !LoginCurrent(s, l) then t
    else if l.wanted.Some? && !SameScope(me, l.wanted.value) then
      t.(store := Cleared(s.store), identity := l.wanted, session := Session(false, false), ready := true, pending := false,
         verificationPending := false)
    else
      t.(store := WithIdentity(s.store, me), recovery := None, identity := Some(me), session := Session(true, false), ready := true,
         pending := false, verificationPending := false)
  }

  function Unverified(s: State, j: nat, aborted: bool): State
    requires j < |s.logins| && s.logins[j].phase.Verifying?
  {
    var l := s.logins[j];
    var t := SetPhase(s, j, Finished);
    if aborted || !LoginCurrent(s, l) then t
    else
      t.(pending := true, verificationPending := true, session := Session(true, false), ready := false,
         identity := if l.wanted.Some? then l.wanted else Some(l.phase.answer))
  }

  // ---- losing the session ------------------------------------------------------------------------------------------------

  /** A rejected request: only the token it carried is cleared, and the session reported as gone. */
  function Expired(s: State, requestToken: Option<Token>, unsaved: bool): State {
    if TokenOf(s.store) != requestToken then s
    else
      var recovery := if unsaved then s.identity else None;
      s.(store := Cleared(s.store), generation := s.generation + 1, pending := false, verificationPending := false, verifying := false,
         recovery := recovery, identity := recovery, session := Session(false, false), ready := true)
  }

  function SignedOut(s: State): State {
    s.(recovery := None, generation := s.generation + 1, pending := false, verificationPending := false, verifying := false,
       store := Cleared(s.store), identity := None, session := Session(false, true), ready := true)
  }

  function Next(s: State, e: Event): State {
    match e
    case RunRestore => RunsRestore(s)
    case RestoreOk(i, me) =>
      if i >= |s.restores| || s.restores[i].done then s
      else
        var r, t := s.restores[i], RestoreEnds(s, i);
        Settled(if RestoreCurrent(s, r) then Restored(t, me) else t, r)
    case RestoreFailed(i, aborted, rejected) =>
      if i >= |s.restores| || s.restores[i].done then s
      else
        var r, t := s.restores[i], RestoreEnds(s, i);
        Settled(if aborted || !RestoreCurrent(s, r) then t else if rejected then Rejected(t) else Unreachable(t), r)
    case LoginStart(token, wanted) => LoginStarts(s, token, wanted)
    case LoginAnswered(j, answer) => if j < |s.logins| && s.logins[j].phase == Asking then Answered(s, j, answer) else s
    case LoginRefused(j) => if j < |s.logins| && s.logins[j].phase == Asking then Refused(s, j) else s
    case LoginVerified(j, me) => if j < |s.logins| && s.logins[j].phase.Verifying? then Verified(s, j, me) else s
    case LoginUnverified(j, aborted) => if j < |s.logins| && s.logins[j].phase.Verifying? then Unverified(s, j, aborted) else s
    case Unauthorized(token, unsaved) => Expired(s, token, unsaved)
    case SignOut => SignedOut(s)
  }

  function Run(s: State, es: seq<Event>): State
    decreases |es|
  {
    if es == [] then s else Run(Next(s, es[0]), es[1..])
  }

  // ---- superseded attempts -------------------------------------------------------------------------------------------------

  /** Everything is as it was, the marks of attempts apart. */
  ghost predicate SameSession(s: State, t: State) {
    t == s.(restores := t.restores, logins := t.logins)
  }

  /** Nothing has changed but that the attempt `e` completes may be marked as over. */
  ghost predicate OnlyMarked(s: State, t: State, e: Event) {
    match e
    case RestoreOk(i, _) => t == s || (i < |s.restores| && t == RestoreEnds(s, i))
    case RestoreFailed(i, _, _) => t == s || (i < |s.restores| && t == RestoreEnds(s, i))
    case LoginAnswered(j, _) => t == s || (j < |s.logins| && t == SetPhase(s, j, Finished))
    case LoginRefused(j) => t == s || (j < |s.logins| && t == SetPhase(s, j, Finished))
    case LoginVerified(j, _) => t == s || (j < |s.logins| && t == SetPhase(s, j, Finished))
    case LoginUnverified(j, _) => t == s || (j < |s.logins| && t == SetPhase(s, j, Finished))
    case _ => t == s
  }

  /** The completion of an attempt begun with generation `mine`. */
  ghost predicate CompletionOf(s: State, e: Event, mine: nat) {
    match e
    case RestoreOk(i, _) => i < |s.restores| && s.restores[i].mine == mine
    case RestoreFailed(i, _, _) => i < |s.restores| && s.restores[i].mine == mine
    case LoginAnswered(j, _) => j < |s.logins| && s.logins[j].mine == mine
    case LoginRefused(j) => j < |s.logins| && s.logins[j].mine == mine
    case LoginVerified(j, _) => j < |s.logins| && s.logins[j].mine == mine
    case LoginUnverified(j, _) => j < |s.logins| && s.logins[j].mine == mine
    case _ => false
  }

  lemma SupersededChangesNothing(s: State, e: Event, mine: nat)
    requires CompletionOf(s, e, mine) && s.generation != mine
    ensures OnlyMarked(s, Next(s, e), e) && SameSession(s, Next(s, e))
  {
  }

  /** Generations only grow; attempts keep theirs. */
  ghost predicate Later(s: State, t: State) {
    s.generation <= t.generation && |s.restores| <= |t.restores| && |s.logins| <= |t.logins| &&
    (forall i :: 0 <= i < |s.restores| ==> t.restores[i].mine == s.restores[i].mine && t.restores[i].token == s.restores[i].token) &&
    (forall j :: 0 <= j < |s.logins| ==> t.logins[j].mine == s.logins[j].mine && t.logins[j].token == s.logins[j].token)
  }

  /** A check completes: its entry is marked, and no list changes otherwise. */
  lemma RestoreStep(s: State, e: Event)
    requires e.RestoreOk? || e.RestoreFailed?
    ensures var t := Next(s, e);
            t.generation == s.generation && t.logins == s.logins &&
            (t.restores == s.restores ||
             (e.restore < |s.restores| && t.restores == s.restores[e.restore := s.restores[e.restore].(done := true)]))
  {
    if e.restore < |s.restores| {
      var t := RestoreEnds(s, e.restore);
      if e.RestoreOk? {
        DecidedStep(t, Restored(t, e.me), s.restores[e.restore]);
      } else {
        DecidedStep(t, Rejected(t), s.restores[e.restore]);
        DecidedStep(t, Unreachable(t), s.restores[e.restore]);
      }
      DecidedStep(t, t, s.restores[e.restore]);
      hide Restored, Rejected, Unreachable, Settled, RestoreCurrent;
    }
  }

  lemma DecidedStep(t: State, u: State, r: Restore)
    requires u.generation == t.generation && u.logins == t.logins && u.restores == t.restores
    ensures var v := Settled(u, r); v.generation == t.generation && v.logins == t.logins && v.restores == t.restores
  {
  }

  /** The phase of one sign-in may have changed, and no list otherwise. */
  ghost predicate OnlyLogin(s: State, t: State, j: nat) {
    t.generation == s.generation && t.restores == s.restores &&
    (t.logins == s.logins || (j < |s.logins| && j < |t.logins| && t.logins == s.logins[j := s.logins[j].(phase := t.logins[j].phase)]))
  }

  lemma AnsweredStep(s: State, j: nat, answer: Identity)
    requires j < |s.logins|
    ensures OnlyLogin(s, Answered(s, j, answer), j)
  {
  }

  lemma RefusedStep(s: State, j: nat)
    requires j < |s.logins|
    ensures OnlyLogin(s, Refused(s, j), j)
  {
  }

  lemma VerifiedStep(s: State, j: nat, me: Identity)
    requires j < |s.logins|
    ensures OnlyLogin(s, Verified(s, j, me), j)
  {
  }

  lemma UnverifiedStep(s: State, j: nat, aborted: bool)
    requires j < |s.logins| && s.logins[j].phase.Verifying?
    ensures OnlyLogin(s, Unverified(s, j, aborted), j)
  {
  }

  predicate IsLoginStep(e: Event) {
    e.LoginAnswered? || e.LoginRefused? || e.LoginVerified? || e.LoginUnverified?
  }

  lemma LoginStep(s: State, e: Event)
    requires IsLoginStep(e)
    ensures OnlyLogin(s, Next(s, e), e.login)
  {
    assert OnlyLogin(s, s, e.login);
    hide Answered, Refused, Verified, Unverified, OnlyLogin;
    if e.login < |s.logins| {
      match e {
        case LoginAnswered(j, answer) => AnsweredStep(s, j, answer);
        case LoginRefused(j) => RefusedStep(s, j);
        case LoginVerified(j, me) => VerifiedStep(s, j, me);
        case LoginUnverified(j, aborted) => if s.logins[j].phase.Verifying? { UnverifiedStep(s, j, aborted); }
      }
    }
  }

  lemma NextLater(s: State, e: Event)
    ensures Later(s, Next(s, e))
  {
    if e.RestoreOk? || e.RestoreFailed? {
      hide Next;
      RestoreStep(s, e);
    } else if IsLoginStep(e) {
      hide Next;
      LoginStep(s, e);
    }
  }

  lemma {:induction false} RunLater(s: State, es: seq<Event>)
    ensures Later(s, Run(s, es))
    decreases |es|
  {
    hide Next;
    if es != [] {
      NextLater(s, es[0]);
      RunLater(Next(s, es[0]), es[1..]);
    }
  }

  /** Every event that begins an attempt, and every loss of the session, supersedes the attempts before it. */
  lemma Supersedes(s: State, e: Event)
    requires e == RunRestore || e.LoginStart? || e == SignOut || (e.Unauthorized? && e.requestToken == TokenOf(s.store))
    ensures Next(s, e).generation == s.generation + 1
  {
  }

  /** An attempt that has been superseded changes nothing when it completes, whatever happened in between. */
  lemma SupersededForGood(s: State, mine: nat, es: seq<Event>, e: Event)
    requires mine < s.generation && CompletionOf(Run(s, es), e, mine)
    ensures OnlyMarked(Run(s, es), Next(Run(s, es), e), e)
  {
    hide Run, Next, SameSession, OnlyMarked, CompletionOf;
    RunLater(s, es);
    SupersededChangesNothing(Run(s, es), e, mine);
  }

  ghost predicate Superseding(s: State, e: Event) {
    e == RunRestore || e.LoginStart? || e == SignOut || (e.Unauthorized? && e.requestToken == TokenOf(s.store))
  }

  /** The attempt that `e` completes is out. */
  predicate Begun(s: State, e: Event) {
    match e
    case RestoreOk(i, _) => i < |s.restores|
    case RestoreFailed(i, _, _) => i < |s.restores|
    case LoginAnswered(j, _) => j < |s.logins|
    case LoginRefused(j) => j < |s.logins|
    case LoginVerified(j, _) => j < |s.logins|
    case LoginUnverified(j, _) => j < |s.logins|
    case _ => false
  }

  function MineOf(s: State, e: Event): nat
    requires Begun(s, e)
  {
    match e
    case RestoreOk(i, _) => s.restores[i].mine
    case RestoreFailed(i, _, _) => s.restores[i].mine
    case LoginAnswered(j, _) => s.logins[j].mine
    case LoginRefused(j) => s.logins[j].mine
    case LoginVerified(j, _) => s.logins[j].mine
    case LoginUnverified(j, _) => s.logins[j].mine
  }

  lemma BegunLater(s: State, t: State, e: Event)
    requires Begun(s, e) && Later(s, t)
    ensures CompletionOf(t, e, MineOf(s, e))
  {
  }

  /**
    In every run: a new check, a sign-in, a sign-out or a loss of the session supersedes every
    attempt out at that time, so whenever one of them completes, nothing changes.
  */
  lemma SupersededByAny(store: Store, before: seq<Event>, e: Event, after: seq<Event>, late: Event)
    requires Superseding(Run(Init(store), before), e) && Begun(Run(Init(store), before), late)
    ensures var t := Run(Next(Run(Init(store), before), e), after); OnlyMarked(t, Next(t, late), late)
  {
    var s := Run(Init(store), before);
    assert MinesOk(Init(store));
    RunMines(Init(store), before);
    assert MineOf(s, late) <= s.generation;
    hide Run, OnlyMarked;
    Supersedes(s, e);
    hide Next, CompletionOf, MinesOk, MineOf, Begun;
    var u := Next(s, e);
    NextLater(s, e);
    RunLater(u, after);
    LaterTwice(s, u, Run(u, after));
    BegunLater(s, Run(u, after), late);
    SupersededForGood(u, MineOf(s, late), after, late);
  }

  lemma LaterTwice(s: State, t: State, u: State)
    requires Later(s, t) && Later(t, u)
    ensures Later(s, u)
  {
  }

  /** A 401 for another token, or the end of an attempt already superseded. */
  ghost predicate Late(s: State, e: Event) {
    (e.Unauthorized? && e.requestToken != TokenOf(s.store)) || (Begun(s, e) && MineOf(s, e) < s.generation)
  }

  lemma LateChangesNothing(s: State, e: Event)
    requires Late(s, e)
    ensures SameSession(s, Next(s, e))
  {
    if !e.Unauthorized? {
      assert CompletionOf(s, e, MineOf(s, e));
      hide Next, SameSession;
      SupersededChangesNothing(s, e, MineOf(s, e));
    }
  }

  lemma LateStays(s: State, t: State, e: Event)
    requires Late(s, e) && Later(s, t) && SameSession(s, t)
    ensures Late(t, e)
  {
  }

  /** Whatever old requests and attempts still end, in any order and number, the newer session stands untouched. */
  lemma {:induction false} LateArrivals(s: State, es: seq<Event>)
    requires forall k :: 0 <= k < |es| ==> Late(s, es[k])
    ensures SameSession(s, Run(s, es))
    decreases |es|
  {
    if es != [] {
      var t := Next(s, es[0]);
      LateChangesNothing(s, es[0]);
      hide Next, Late;
      NextLater(s, es[0]);
      forall k | 0 <= k < |es[1..]|
        ensures Late(t, es[1..][k])
      {
        LateStays(s, t, es[k + 1]);
      }
      LateArrivals(t, es[1..]);
    }
  }

  // ---- after a sign-out ----------------------------------------------------------------------------------------------------------

  /** Nobody is signed in, and every attempt still out is superseded. */
  ghost predicate Out(s: State) {
    TokenOf(s.store).None? && !s.session.authenticated &&
    (forall i :: 0 <= i < |s.restores| ==> s.restores[i].mine < s.generation) &&
    (forall j :: 0 <= j < |s.logins| ==> s.logins[j].mine < s.generation)
  }

  /** Attempts never come from the future. */
  ghost predicate MinesOk(s: State) {
    (forall i :: 0 <= i < |s.restores| ==> s.restores[i].mine <= s.generation) &&
    (forall j :: 0 <= j < |s.logins| ==> s.logins[j].mine <= s.generation)
  }

  lemma MinesKept(s: State, e: Event)
    requires MinesOk(s)
    ensures MinesOk(Next(s, e))
  {
    if e.RestoreOk? || e.RestoreFailed? {
      hide Next;
      RestoreStep(s, e);
    } else if IsLoginStep(e) {
      hide Next;
      LoginStep(s, e);
    }
  }

  lemma {:induction false} RunMines(s: State, es: seq<Event>)
    requires MinesOk(s)
    ensures MinesOk(Run(s, es))
    decreases |es|
  {
    hide Next, MinesOk;
    if es != [] {
      MinesKept(s, es[0]);
      RunMines(Next(s, es[0]), es[1..]);
    }
  }

  lemma SignOutIsOut(s: State)
    requires MinesOk(s)
    ensures Out(Next(s, SignOut))
  {
  }

  lemma CompletionExists(s: State, e: Event)
    requires Out(s) && (e.RestoreOk? || e.RestoreFailed? || e.LoginAnswered? || e.LoginRefused? || e.LoginVerified? || e.LoginUnverified?)
    ensures Next(s, e) == s || exists mine: nat :: mine < s.generation && CompletionOf(s, e, mine)
  {
    match e {
      case RestoreOk(i, _) => if i < |s.restores| { assert CompletionOf(s, e, s.restores[i].mine); }
      case RestoreFailed(i, _, _) => if i < |s.restores| { assert CompletionOf(s, e, s.restores[i].mine); }
      case LoginAnswered(j, _) => if j < |s.logins| { assert CompletionOf(s, e, s.logins[j].mine); }
      case LoginRefused(j) => if j < |s.logins| { assert CompletionOf(s, e, s.logins[j].mine); }
      case LoginVerified(j, _) => if j < |s.logins| { assert CompletionOf(s, e, s.logins[j].mine); }
      case LoginUnverified(j, _) => if j < |s.logins| { assert CompletionOf(s, e, s.logins[j].mine); }
    }
  }

  lemma OutStays(s: State, e: Event)
    requires Out(s) && !e.LoginStart?
    ensures Out(Next(s, e))
  {
    if e == RunRestore || e.Unauthorized? || e == SignOut {
    } else {
      hide Next;
      CompletionExists(s, e);
      if Next(s, e) != s {
        var mine: nat :| mine < s.generation && CompletionOf(s, e, mine);
        SupersededChangesNothing(s, e, mine);
        hide CompletionOf;
        if e.RestoreOk? || e.RestoreFailed? {
          RestoreStep(s, e);
        } else {
          LoginStep(s, e);
        }
      }
    }
  }

  lemma {:induction false} OutUntilLogin(s: State, es: seq<Event>)
    requires Out(s) && forall k :: 0 <= k < |es| ==> !es[k].LoginStart?
    ensures Out(Run(s, es))
    decreases |es|
  {
    hide Next, Out;
    if es != [] {
      OutStays(s, es[0]);
      OutUntilLogin(Next(s, es[0]), es[1..]);
    }
  }

  /**
    After a sign-out, whatever completes and however often the session check is retried, there is
    no token and nobody is signed in until a new sign-in begins.
  */
  lemma SignOutHolds(store: Store, before: seq<Event>, after: seq<Event>)
    requires forall k :: 0 <= k < |after| ==> !after[k].LoginStart?
    ensures var t := Run(Next(Run(Init(store), before), SignOut), after);
            TokenOf(t.store).None? && !t.session.authenticated
  {
    hide Run, Next;
    RunMines(Init(store), before);
    SignOutIsOut(Run(Init(store), before));
    OutUntilLogin(Next(Run(Init(store), before), SignOut), after);
  }

  // ---- clearing tokens ---------------------------------------------------------------------------------------------------------------

  /** A step takes away a token only on sign-out, or for a request or attempt that carried that token. */
  lemma ClearedOnlyByItsOwn(s: State, e: Event, token: Token)
    requires TokenOf(s.store) == Some(token) && TokenOf(Next(s, e).store).None?
    ensures match e
            case SignOut => true
            case Unauthorized(requestToken, _) => requestToken == Some(token)
            case RestoreOk(i, _) => i < |s.restores| && s.restores[i].token == token && s.restores[i].mine == s.generation
            case RestoreFailed(i, _, _) => i < |s.restores| && s.restores[i].token == token && s.restores[i].mine == s.generation
            case LoginVerified(j, _) => j < |s.logins| && s.logins[j].token == token && s.logins[j].mine == s.generation
            case _ => false
  {
  }

  // ---- resuming a draft ------------------------------------------------------------------------------------------------------------------

  /** The draft identity is the one the current sign-in wants, and nothing is remembered while a draft waits. */
  ghost predicate RecoveryOk(s: State) {
    MinesOk(s) &&
    (forall j :: 0 <= j < |s.logins| && s.logins[j].phase.Verifying? && s.logins[j].mine == s.generation ==>
       s.recovery == s.logins[j].wanted) &&
    (forall i, j :: 0 <= i < j < |s.logins| ==> s.logins[i].mine < s.logins[j].mine) &&
    (forall i, j :: 0 <= i < |s.restores| && 0 <= j < |s.logins| ==> s.restores[i].mine != s.logins[j].mine) &&
    (s.recovery.Some? ==> LoadedIdentity(s.store).None?)
  }

  lemma RecoveryInit(store: Store)
    ensures RecoveryOk(Init(store))
  {
  }

  /** A check decides the session only when no sign-in is being verified. */
  lemma RestoreAlone(s: State, e: Event)
    requires RecoveryOk(s) && (e.RestoreOk? || e.RestoreFailed?)
    ensures RecoveryOk(Next(s, e))
  {
    RestoreStep(s, e);
    MinesKept(s, e);
    RestoreRecovery(s, e);
    hide Next, MinesOk;
  }

  /** Nothing is remembered while a draft waits. */
  ghost predicate Forgotten(s: State) {
    s.recovery.Some? ==> LoadedIdentity(s.store).None?
  }

  lemma RestoreRecovery(s: State, e: Event)
    requires Forgotten(s) && (e.RestoreOk? || e.RestoreFailed?)
    ensures var t := Next(s, e);
            (t.recovery == s.recovery || (e.restore < |s.restores| && s.restores[e.restore].mine == s.generation)) && Forgotten(t)
  {
    if e.restore < |s.restores| {
      var t := RestoreEnds(s, e.restore);
      assert Forgotten(t) && t.recovery == s.recovery;
      if e.RestoreOk? {
        assert Forgotten(Restored(t, e.me));
      } else {
        assert Forgotten(Rejected(t)) && Rejected(t).recovery == t.recovery;
        assert Forgotten(Unreachable(t)) && Unreachable(t).recovery == t.recovery;
      }
      hide Restored, Rejected, Unreachable;
    }
  }

  /** What a sign-in step does to the draft identity. */
  ghost predicate Recovers(s: State, t: State, j: nat) {
    Forgotten(t) && j < |s.logins| && j < |t.logins| &&
    (t.recovery == s.recovery || s.logins[j].mine == s.generation) &&
    (t.logins[j].phase.Verifying? && s.logins[j].mine == s.generation ==> t.recovery == s.logins[j].wanted)
  }

  lemma AnsweredRecovers(s: State, j: nat, answer: Identity)
    requires Forgotten(s) && j < |s.logins|
    ensures Recovers(s, Answered(s, j, answer), j)
  {
  }

  lemma RefusedRecovers(s: State, j: nat)
    requires Forgotten(s) && j < |s.logins|
    ensures Recovers(s, Refused(s, j), j)
  {
  }

  lemma VerifiedRecovers(s: State, j: nat, me: Identity)
    requires Forgotten(s) && j < |s.logins|
    ensures Recovers(s, Verified(s, j, me), j)
  {
  }

  lemma UnverifiedRecovers(s: State, j: nat, aborted: bool)
    requires Forgotten(s) && j < |s.logins| && s.logins[j].phase.Verifying?
    ensures Recovers(s, Unverified(s, j, aborted), j)
  {
  }

  lemma LoginRecovery(s: State, e: Event)
    requires RecoveryOk(s) && IsLoginStep(e) && e.login < |s.logins|
    ensures Recovers(s, Next(s, e), e.login)
  {
    assert Forgotten(s) && Recovers(s, s, e.login);
    hide Answered, Refused, Verified, Unverified, Recovers, Forgotten;
    match e {
      case LoginAnswered(j, answer) => AnsweredRecovers(s, j, answer);
      case LoginRefused(j) => RefusedRecovers(s, j);
      case LoginVerified(j, me) => VerifiedRecovers(s, j, me);
      case LoginUnverified(j, aborted) => if s.logins[j].phase.Verifying? { UnverifiedRecovers(s, j, aborted); }
    }
  }

  lemma LoginKeepsRecovery(s: State, e: Event)
    requires RecoveryOk(s) && IsLoginStep(e)
    ensures RecoveryOk(Next(s, e))
  {
    LoginStep(s, e);
    MinesKept(s, e);
    if e.login < |s.logins| {
      LoginRecovery(s, e);
      hide Next, MinesOk, LoadedIdentity;
    } else {
      assert Next(s, e) == s;
    }
  }

  lemma OtherKeepsRecovery(s: State, e: Event)
    requires RecoveryOk(s) && (e == RunRestore || e.LoginStart? || e.Unauthorized? || e == SignOut)
    ensures RecoveryOk(Next(s, e))
  {
    MinesKept(s, e);
    hide MinesOk;
    match e {
      case RunRestore => RunRecovery(s);
      case LoginStart(token, wanted) => StartRecovery(s, token, wanted);
      case Unauthorized(_, _) =>
      case SignOut =>
    }
  }

  lemma RunRecovery(s: State)
    requires RecoveryOk(s) && MinesOk(RunsRestore(s))
    ensures RecoveryOk(RunsRestore(s))
  {
  }

  lemma StartRecovery(s: State, token: Token, wanted: Option<Identity>)
    requires RecoveryOk(s) && MinesOk(LoginStarts(s, token, wanted))
    ensures RecoveryOk(LoginStarts(s, token, wanted))
  {
  }

  lemma NextKeepsRecovery(s: State, e: Event)
    requires RecoveryOk(s)
    ensures RecoveryOk(Next(s, e))
  {
    hide Next, RecoveryOk;
    if e.RestoreOk? || e.RestoreFailed? {
      RestoreAlone(s, e);
    } else if e == RunRestore || e.LoginStart? || e.Unauthorized? || e == SignOut {
      OtherKeepsRecovery(s, e);
    } else {
      LoginKeepsRecovery(s, e);
    }
  }

  lemma {:induction false} RunKeepsRecovery(s: State, es: seq<Event>)
    requires RecoveryOk(s)
    ensures RecoveryOk(Run(s, es))
    decreases |es|
  {
    hide Next, RecoveryOk;
    if es != [] {
      NextKeepsRecovery(s, es[0]);
      RunKeepsRecovery(Next(s, es[0]), es[1..]);
    }
  }

  /** Token, remembered identity, identity shown, session and draft identity are as they were. */
  ghost predicate SameIdentity(s: State, t: State) {
    t.store == s.store && t.identity == s.identity && t.session == s.session && t.recovery == s.recovery
  }

  /** The server has confirmed who is signed in. */
  predicate IsVerified(s: State) {
    s.session.authenticated && !s.verificationPending
  }

  /** A completion of a check or of the verification of a sign-in. */
  predicate IsDecision(e: Event) {
    e.RestoreOk? || e.RestoreFailed? || e.LoginVerified? || e.LoginUnverified?
  }

  ghost predicate Resumed(t: State, wanted: Identity) {
    t.identity.Some? && SameScope(t.identity.value, wanted) && t.recovery.None?
  }

  lemma RestoreResumes(s: State, e: Event, wanted: Identity)
    requires Forgotten(s) && s.recovery == Some(wanted) && (e.RestoreOk? || e.RestoreFailed?)
    requires !SameIdentity(s, Next(s, e)) && IsVerified(Next(s, e))
    ensures Resumed(Next(s, e), wanted)
  {
    if e.restore < |s.restores| {
      var t := RestoreEnds(s, e.restore);
      assert Forgotten(t) && t.recovery == s.recovery;
      assert LoadedIdentity(t.store).None?;
      hide LoadedIdentity, WithIdentity, Cleared;
    }
  }

  lemma LoginResumes(s: State, e: Event, wanted: Identity)
    requires RecoveryOk(s) && s.recovery == Some(wanted) && (e.LoginVerified? || e.LoginUnverified?)
    requires !SameIdentity(s, Next(s, e)) && IsVerified(Next(s, e))
    ensures Resumed(Next(s, e), wanted)
  {
    hide LoadedIdentity, WithIdentity, Cleared, MinesOk;
    if e.login < |s.logins| && s.logins[e.login].phase.Verifying? {
      assert LoginCurrent(s, s.logins[e.login]) ==> s.recovery == s.logins[e.login].wanted;
    }
  }

  /**
    While a draft waits for an identity, a completion that leaves the session verified shows an
    identity of the same name, kind, environment and application.
  */
  lemma RecoveryKeepsScope(store: Store, es: seq<Event>, e: Event, wanted: Identity)
    requires Run(Init(store), es).recovery == Some(wanted) && IsDecision(e)
    requires !SameIdentity(Run(Init(store), es), Next(Run(Init(store), es), e)) && IsVerified(Next(Run(Init(store), es), e))
    ensures Resumed(Next(Run(Init(store), es), e), wanted)
  {
    var s := Run(Init(store), es);
    hide Run, Next, SameIdentity, IsVerified, Resumed;
    RecoveryInit(store);
    RunKeepsRecovery(Init(store), es);
    if e.RestoreOk? || e.RestoreFailed? {
      RestoreResumes(s, e, wanted);
    } else {
      LoginResumes(s, e, wanted);
    }
  }
}
