/**
  What a sign-in and a session check come to, whatever ends late in between.

  `Late` events are those of attempts already superseded and 401s of other tokens.  They leave
  the attempt under way alone (`LateSpares`), so from every reachable state a sign-in ends in
  one of four ways (`SignInVerified`, `SignInUnverified`, `SignInMismatched`, `SignInRefused`)
  and a session check in one of four (`CheckSucceeds`, `CheckRejected`, `CheckUnreachable`,
  `NothingToCheck`).
*/
module AuthOutcomes {
  import opened JsonSyntax
  import opened Auth

  // ---- the ways to end up -------------------------------------------------------------------------------------

  /** Signed in and verified; the identity is remembered for the token where storage works. */
  ghost predicate SignedIn(s: State, token: Token, me: Identity) {
    TokenOf(s.store) == Some(token) && s.session == Session(true, false) && s.identity == Some(me) && s.recovery.None? &&
    s.ready && !s.pending && !s.verificationPending && !s.verifying && (s.store.works ==> LoadedIdentity(s.store) == Some(me))
  }

  /** No token is left, nor anything remembered, and the console is ready to sign in. */
  ghost predicate TurnedAway(s: State, shown: Option<Identity>) {
    TokenOf(s.store).None? && LoadedIdentity(s.store).None? && s.session == Session(false, false) && s.identity == shown &&
    s.ready && !s.pending && !s.verificationPending && !s.verifying
  }

  /** The token is kept, but who holds it is yet to be verified. */
  ghost predicate Undecided(s: State, token: Token, shown: Option<Identity>) {
    TokenOf(s.store) == Some(token) && s.session == Session(true, false) && s.identity == shown &&
    !s.ready && s.pending && s.verificationPending && !s.verifying
  }

  // ---- attempts under way are spared ------------------------------------------------------------------------------

  /** Attempts of the present generation are as they were. */
  ghost predicate Spared(s: State, t: State) {
    |t.restores| == |s.restores| && |t.logins| == |s.logins| &&
    (forall i :: 0 <= i < |s.restores| && s.restores[i].mine == s.generation ==> t.restores[i] == s.restores[i]) &&
    (forall j :: 0 <= j < |s.logins| && s.logins[j].mine == s.generation ==> t.logins[j] == s.logins[j])
  }

  lemma LateStep(s: State, e: Event)
    requires Late(s, e)
    ensures Spared(s, Next(s, e)) && SameSession(s, Next(s, e))
  {
    if !e.Unauthorized? {
      assert CompletionOf(s, e, MineOf(s, e));
      hide Next;
      SupersededChangesNothing(s, e, MineOf(s, e));
    }
  }

  ghost predicate AllLate(s: State, es: seq<Event>) {
    forall k :: 0 <= k < |es| ==> Late(s, es[k])
  }

  /** Late arrivals, in any order and number, change neither the session nor the attempt under way. */
  lemma {:induction false} LateSpares(s: State, es: seq<Event>)
    requires AllLate(s, es)
    ensures Spared(s, Run(s, es)) && SameSession(s, Run(s, es))
    decreases |es|
  {
    hide Next, Late;
    if es != [] {
      var t := Next(s, es[0]);
      LateStep(s, es[0]);
      NextLater(s, es[0]);
      forall k | 0 <= k < |es[1..]|
        ensures Late(t, es[1..][k])
      {
        LateStays(s, t, es[k + 1]);
      }
      LateSpares(t, es[1..]);
    }
  }

  // ---- signing in -----------------------------------------------------------------------------------------------------

  /** Sign-in `j` is the latest attempt and in the given phase. */
  ghost predicate SigningIn(s: State, j: nat, token: Token, wanted: Option<Identity>, phase: Phase) {
    j < |s.logins| && s.logins[j] == Login(token, wanted, s.generation, phase) && !s.verifying
  }

  lemma Started(s: State, token: Token, wanted: Option<Identity>)
    ensures SigningIn(Next(s, LoginStart(token, wanted)), |s.logins|, token, wanted, Asking)
  {
  }

  lemma StillSigningIn(s: State, j: nat, token: Token, wanted: Option<Identity>, phase: Phase, es: seq<Event>)
    requires SigningIn(s, j, token, wanted, phase) && AllLate(s, es)
    ensures SigningIn(Run(s, es), j, token, wanted, phase) && SameSession(s, Run(s, es))
  {
    hide Run, AllLate;
    LateSpares(s, es);
  }

  /** Whether the first answer names the identity a draft waits for, or no draft waits. */
  predicate Named(answer: Identity, wanted: Option<Identity>) {
    wanted.Some? ==> answer.name == wanted.value.name && answer.kind == wanted.value.kind
  }

  lemma Accepted(s: State, j: nat, token: Token, wanted: Option<Identity>, answer: Identity)
    requires SigningIn(s, j, token, wanted, Asking) && Named(answer, wanted)
    ensures var t := Next(s, LoginAnswered(j, answer));
            SigningIn(t, j, token, wanted, Verifying(answer)) && TokenOf(t.store) == Some(token) && t.recovery == wanted
  {
  }

  /** A sign-in from `LoginStart` to its first answer, with late arrivals on both sides of it. */
  ghost function Asked(s: State, token: Token, wanted: Option<Identity>, first: seq<Event>, answer: Identity, second: seq<Event>): State {
    Run(Next(Run(Next(s, LoginStart(token, wanted)), first), LoginAnswered(|s.logins|, answer)), second)
  }

  ghost predicate LateTwice(s: State, token: Token, wanted: Option<Identity>, first: seq<Event>, answer: Identity, second: seq<Event>) {
    var a := Next(s, LoginStart(token, wanted));
    AllLate(a, first) && AllLate(Next(Run(a, first), LoginAnswered(|s.logins|, answer)), second)
  }

  lemma AskedComes(s: State, token: Token, wanted: Option<Identity>, first: seq<Event>, answer: Identity, second: seq<Event>)
    requires LateTwice(s, token, wanted, first, answer, second) && Named(answer, wanted)
    ensures var t := Asked(s, token, wanted, first, answer, second);
            SigningIn(t, |s.logins|, token, wanted, Verifying(answer)) && TokenOf(t.store) == Some(token) && t.recovery == wanted
  {
    hide Next, Run, AllLate, SigningIn, Named;
    var a, j := Next(s, LoginStart(token, wanted)), |s.logins|;
    Started(s, token, wanted);
    StillSigningIn(a, j, token, wanted, Asking, first);
    var b := Run(a, first);
    Accepted(b, j, token, wanted, answer);
    StillSigningIn(Next(b, LoginAnswered(j, answer)), j, token, wanted, Verifying(answer), second);
  }

  /** A verified sign-in is signed in, unless a draft waits for another scope: then it is turned away, with the draft's identity shown. */
  lemma SignInVerified(s: State, token: Token, wanted: Option<Identity>, first: seq<Event>, answer: Identity, second: seq<Event>, me: Identity)
    requires LateTwice(s, token, wanted, first, answer, second) && Named(answer, wanted)
    ensures var t := Next(Asked(s, token, wanted, first, answer, second), LoginVerified(|s.logins|, me));
            if wanted.None? || SameScope(me, wanted.value) then SignedIn(t, token, me) else TurnedAway(t, wanted) && t.recovery == wanted
  {
    AskedComes(s, token, wanted, first, answer, second);
    hide Asked, LateTwice, Named;
  }

  /** One that cannot be verified is signed in provisionally; an aborted one changes nothing more. */
  lemma SignInUnverified(s: State, token: Token, wanted: Option<Identity>, first: seq<Event>, answer: Identity, second: seq<Event>, aborted: bool)
    requires LateTwice(s, token, wanted, first, answer, second) && Named(answer, wanted)
    ensures var u := Asked(s, token, wanted, first, answer, second);
            var t := Next(u, LoginUnverified(|s.logins|, aborted));
            if aborted then SameSession(u, t) else Undecided(t, token, if wanted.Some? then wanted else Some(answer))
  {
    AskedComes(s, token, wanted, first, answer, second);
    hide Asked, LateTwice, Named;
  }

  /** One answered with another identity than the draft's leaves the session as it was. */
  lemma SignInMismatched(s: State, token: Token, wanted: Option<Identity>, late: seq<Event>, answer: Identity)
    requires AllLate(Next(s, LoginStart(token, wanted)), late) && !Named(answer, wanted)
    ensures var t := Next(Run(Next(s, LoginStart(token, wanted)), late), LoginAnswered(|s.logins|, answer));
            SameSession(s, t.(generation := s.generation, verifying := s.verifying))
  {
    var a := Next(s, LoginStart(token, wanted));
    Started(s, token, wanted);
    StillSigningIn(a, |s.logins|, token, wanted, Asking, late);
    hide Run, AllLate;
  }

  /** One refused leaves the session as it was, and the console ready if no token is left to check. */
  lemma SignInRefused(s: State, token: Token, wanted: Option<Identity>, late: seq<Event>)
    requires AllLate(Next(s, LoginStart(token, wanted)), late)
    ensures var t := Next(Run(Next(s, LoginStart(token, wanted)), late), LoginRefused(|s.logins|));
            SameSession(s, t.(generation := s.generation, verifying := s.verifying, ready := s.ready)) &&
            (t.ready <==> s.ready || TokenOf(s.store).None?)
  {
    var a := Next(s, LoginStart(token, wanted));
    Started(s, token, wanted);
    StillSigningIn(a, |s.logins|, token, wanted, Asking, late);
    hide Run, AllLate;
  }

  // ---- session checks ----------------------------------------------------------------------------------------------------

  /** Check `i` is the latest attempt, of the token the console holds. */
  ghost predicate Checking(s: State, i: nat, token: Token) {
    i < |s.restores| && s.restores[i] == Restore(token, s.generation, false, false) && TokenOf(s.store) == Some(token) && s.verifying
  }

  lemma CheckStarts(s: State, token: Token)
    requires TokenOf(s.store) == Some(token)
    ensures Checking(Next(s, RunRestore), |s.restores|, token)
  {
  }

  /** The state in which a check begun in `s` ends, after late arrivals. */
  ghost function Checked(s: State, late: seq<Event>): State {
    Run(Next(s, RunRestore), late)
  }

  lemma StillChecking(s: State, token: Token, late: seq<Event>)
    requires TokenOf(s.store) == Some(token) && AllLate(Next(s, RunRestore), late)
    ensures var t := Checked(s, late);
            Checking(t, |s.restores|, token) && t.store == s.store && t.recovery == s.recovery && t.pending == s.pending
  {
    CheckStarts(s, token);
    LateSpares(Next(s, RunRestore), late);
    hide Run, AllLate;
  }

  /** A check that succeeds signs in, unless a draft waits for another scope. */
  lemma CheckSucceeds(s: State, token: Token, late: seq<Event>, me: Identity)
    requires TokenOf(s.store) == Some(token) && AllLate(Next(s, RunRestore), late)
    ensures var t := Next(Checked(s, late), RestoreOk(|s.restores|, me));
            if s.recovery.None? || SameScope(me, s.recovery.value) then SignedIn(t, token, me)
            else TurnedAway(t, s.recovery) && t.recovery == s.recovery
  {
    StillChecking(s, token, late);
    hide Checked, AllLate;
  }

  /** A token the server refuses is dropped; only the identity of a waiting draft stays shown. */
  lemma CheckRejected(s: State, token: Token, late: seq<Event>)
    requires TokenOf(s.store) == Some(token) && AllLate(Next(s, RunRestore), late)
    ensures var t := Next(Checked(s, late), RestoreFailed(|s.restores|, false, true)); TurnedAway(t, s.recovery) && t.recovery == s.recovery
  {
    StillChecking(s, token, late);
    hide Checked, AllLate;
  }

  /** Without an answer the token stands: with the identity remembered for it, or else undecided. */
  lemma CheckUnreachable(s: State, token: Token, late: seq<Event>)
    requires TokenOf(s.store) == Some(token) && AllLate(Next(s, RunRestore), late)
    ensures var t := Next(Checked(s, late), RestoreFailed(|s.restores|, false, false));
            t.store == s.store && t.recovery == s.recovery &&
            if LoadedIdentity(s.store).Some? && !s.pending then
              t.session == Session(true, false) && t.identity == LoadedIdentity(s.store) && t.ready && !t.pending && !t.verifying
            else Undecided(t, token, s.recovery)
  {
    StillChecking(s, token, late);
    hide Checked, AllLate;
  }

  /** Without a token there is nothing to check, and the console is ready to sign in. */
  lemma NothingToCheck(s: State)
    requires TokenOf(s.store).None?
    ensures var t := Next(s, RunRestore); t.ready && t.session == Session(false, false) && TokenOf(t.store).None? && t.identity == s.identity
  {
  }

  // ---- losing the session ------------------------------------------------------------------------------------------------------

  /** A 401 of the token in use turns away; an unsaved draft keeps the identity shown and waits for it. */
  lemma SessionLost(s: State, unsaved: bool)
    ensures var t := Next(s, Unauthorized(TokenOf(s.store), unsaved));
            var waiting := if unsaved then s.identity else None;
            TurnedAway(t, waiting) && t.recovery == waiting
  {
  }
}
