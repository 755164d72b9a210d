/**
 The progress overlay: showing, hiding, grace and hide timers, and hide animations, as a state
 machine over calls, timer firings and animation ends.
 */
module Hud {
  import opened Schema

  // The closure passed to a hide call, named by a number.
  type Completion = nat

  datatype State = State(
    hidden: bool,
    attached: bool,
    graceTimer: Option<nat>,
    hideTimer: Option<nat>,
    graceLive: set<nat>,                      // grace timers that will still fire
    hideLive: set<nat>,                       // hide timers that will still fire
    timerActions: map<nat, Completion>,       // by the key of a delayed hide
    animations: seq<Option<Completion>>,      // running hide animations
    dropped: seq<Completion>,
    ran: seq<Completion>,
    nextId: nat)

  const START := State(true, false, None, None, {}, {}, map[], [], [], [], 0)

  datatype Event =
    | Show(sameView: bool, grace: bool)
    | Hide(animated: bool, completion: Option<Completion>)
    | HideAfter(completion: Option<Completion>)
    | GraceFires(id: nat)
    | HideFires(id: nat)
    | AnimationEnds(i: nat)

  // ---- Steps ----

  function Invalidate(live: set<nat>, timer: Option<nat>): set<nat> {
    if timer.Some? then live - {timer.value} else live
  }

  function Listed(c: Option<Completion>): seq<Completion> {
    if c.Some? then [c.value] else []
  }

  function ShowContent(s: State): State {
    s.(graceLive := Invalidate(s.graceLive, s.graceTimer), hidden := false)
  }

  function DoShow(s: State, sameView: bool, grace: bool): State {
    var s1 := if s.attached && sameView then s else s.(attached := true, hidden := true);
    if grace then s1.(graceTimer := Some(s1.nextId), graceLive := s1.graceLive + {s1.nextId}, nextId := s1.nextId + 1)
    else ShowContent(s1)
  }

  function Finalize(s: State, completion: Option<Completion>): State {
    s.(hidden := true, attached := false, ran := s.ran + Listed(completion))
  }

  function DoHide(s: State, animated: bool, completion: Option<Completion>): State {
    var s1 := s.(graceLive := Invalidate(s.graceLive, s.graceTimer));
    if s1.hidden then s1.(dropped := s1.dropped + Listed(completion))
    else if animated then s1.(animations := s1.animations + [completion])
    else Finalize(s1, completion)
  }

  function DoHideAfter(s: State, completion: Option<Completion>): State {
    var key := s.nextId;
    s.(timerActions := if completion.Some? then s.timerActions[key := completion.value] else s.timerActions,
       hideLive := Invalidate(s.hideLive, s.hideTimer) + {key},
       hideTimer := Some(key),
       nextId := key + 1)
  }

  // The firing timer is valid while its callback runs, and not afterwards.
  function DoGraceFires(s: State, id: nat): State
    requires s.graceTimer.Some?
  {
    var s1 := if s.graceTimer.value in s.graceLive then ShowContent(s) else s;
    s1.(graceLive := s1.graceLive - {id})
  }

  function DoHideFires(s: State, id: nat): State {
    var completion := if id in s.timerActions then Some(s.timerActions[id]) else None;
    var s1 := s.(timerActions := s.timerActions - {id}, hideLive := s.hideLive - {id});
    DoHide(s1, true, completion)
  }

  function DoAnimationEnds(s: State, i: nat): State
    requires i < |s.animations|
  {
    Finalize(s.(animations := s.animations[..i] + s.animations[i + 1..]), s.animations[i])
  }

  // A completion is passed to one call only.
  predicate Enabled(s: State, e: Event) {
    match e
    case Show(_, _) => true
    case Hide(_, completion) => completion.Some? ==> !Known(s, completion.value)
    case HideAfter(completion) => completion.Some? ==> !Known(s, completion.value)
    case GraceFires(id) => id in s.graceLive
    case HideFires(id) => id in s.hideLive
    case AnimationEnds(i) => i < |s.animations|
  }

  function Step(s: State, e: Event): State
    requires Enabled(s, e) && (e.GraceFires? ==> s.graceTimer.Some?)
  {
    match e
    case Show(sameView, grace) => DoShow(s, sameView, grace)
    case Hide(animated, completion) => DoHide(s, animated, completion)
    case HideAfter(completion) => DoHideAfter(s, completion)
    case GraceFires(id) => DoGraceFires(s, id)
    case HideFires(id) => DoHideFires(s, id)
    case AnimationEnds(i) => DoAnimationEnds(s, i)
  }

  // ---- Where a completion is ----

  function Keys(s: State, c: Completion): set<nat> {
    set k | k in s.timerActions && s.timerActions[k] == c
  }

  predicate Known(s: State, c: Completion) {
    Places(s, c) > 0
  }

  // How often a completion is held: stored for a timer, in an animation, dropped, or run.
  function Places(s: State, c: Completion): nat {
    |Keys(s, c)| + multiset(s.animations)[Some(c)] + multiset(s.dropped)[c] + multiset(s.ran)[c]
  }

  predicate Waiting(s: State, c: Completion) {
    exists k <- Keys(s, c) :: k in s.hideLive
  }

  predicate Orphaned(s: State, c: Completion) {
    exists k <- Keys(s, c) :: k !in s.hideLive
  }

  // ---- The invariant ----

  ghost predicate Invariant(s: State) {
    && Timers(s)
    && (forall c: Completion :: Places(s, c) <= 1)
  }

  lemma StartIsInvariant()
    ensures Invariant(START)
  {
    forall c: Completion ensures Places(START, c) == 0 {
      assert Keys(START, c) == {};
    }
  }

  // A new completion is held once from now on; no other is gained or lost.
  ghost predicate Moves(s: State, s': State, added: Option<Completion>) {
    forall c: Completion :: Places(s', c) == Places(s, c) + (if added == Some(c) then 1 else 0)
  }

  lemma FinalizeMoves(s: State, completion: Option<Completion>)
    ensures Moves(s, Finalize(s, completion), completion)
  {
    forall c: Completion
      ensures Places(Finalize(s, completion), c) == Places(s, c) + (if completion == Some(c) then 1 else 0) {
      assert Keys(Finalize(s, completion), c) == Keys(s, c);
    }
  }

  lemma HideMoves(s: State, animated: bool, completion: Option<Completion>)
    ensures Moves(s, DoHide(s, animated, completion), completion)
  {
    var s1 := s.(graceLive := Invalidate(s.graceLive, s.graceTimer));
    forall c: Completion ensures Places(s1, c) == Places(s, c) {
      assert Keys(s1, c) == Keys(s, c);
    }
    if !s1.hidden && !animated {
      FinalizeMoves(s1, completion);
    } else {
      forall c: Completion
        ensures Places(DoHide(s, animated, completion), c) == Places(s, c) + (if completion == Some(c) then 1 else 0) {
        assert Keys(DoHide(s, animated, completion), c) == Keys(s, c);
      }
    }
  }

  lemma HideAfterMoves(s: State, completion: Option<Completion>)
    requires Invariant(s)
    ensures Moves(s, DoHideAfter(s, completion), completion)
  {
    forall c: Completion
      ensures Places(DoHideAfter(s, completion), c) == Places(s, c) + (if completion == Some(c) then 1 else 0) {
      HideAfterPlaces(s, completion, c);
    }
  }

  lemma HideAfterPlaces(s: State, completion: Option<Completion>, c: Completion)
    requires s.nextId !in s.timerActions
    ensures Places(DoHideAfter(s, completion), c) == Places(s, c) + (if completion == Some(c) then 1 else 0)
  {
    var s' := DoHideAfter(s, completion);
    var added := if completion == Some(c) then {s.nextId} else {};
    assert Keys(s', c) == Keys(s, c) + added;
    assert Keys(s, c) !! added;
    assert |Keys(s, c) + added| == |Keys(s, c)| + |added|;
  }

  lemma HideFiresMoves(s: State, id: nat)
    ensures Moves(s, DoHideFires(s, id), None)
  {
    var completion := if id in s.timerActions then Some(s.timerActions[id]) else None;
    var s1 := s.(timerActions := s.timerActions - {id}, hideLive := s.hideLive - {id});
    HideMoves(s1, true, completion);
    forall c: Completion ensures Places(DoHideFires(s, id), c) == Places(s, c) {
      TakenPlaces(s, s1, id, c);
    }
  }

  lemma TakenPlaces(s: State, s1: State, id: nat, c: Completion)
    requires s1 == s.(timerActions := s.timerActions - {id}, hideLive := s.hideLive - {id})
    ensures Places(s, c) == Places(s1, c) + (if id in s.timerActions && s.timerActions[id] == c then 1 else 0)
  {
    var taken := if id in s.timerActions && s.timerActions[id] == c then {id} else {};
    assert Keys(s, c) == Keys(s1, c) + taken;
    assert Keys(s1, c) !! taken;
    assert |Keys(s1, c) + taken| == |Keys(s1, c)| + |taken|;
  }

  lemma AnimationMoves(s: State, i: nat)
    requires i < |s.animations|
    ensures Moves(s, DoAnimationEnds(s, i), None)
  {
    var rest := s.animations[..i] + s.animations[i + 1..];
    var s1 := s.(animations := rest);
    FinalizeMoves(s1, s.animations[i]);
    assert s.animations == s.animations[..i] + [s.animations[i]] + s.animations[i + 1..];
    assert multiset(s.animations) == multiset(rest) + multiset{s.animations[i]};
    forall c: Completion ensures Places(DoAnimationEnds(s, i), c) == Places(s, c) {
      assert Keys(s1, c) == Keys(s, c);
    }
  }

  function Passed(e: Event): Option<Completion> {
    match e
    case Hide(_, completion) => completion
    case HideAfter(completion) => completion
    case _ => None
  }

  /** No event loses or repeats a completion: a step adds the one it is given to exactly one
      place and otherwise only moves completions from place to place. */
  lemma StepConserves(s: State, e: Event)
    requires Invariant(s) && Enabled(s, e)
    ensures Moves(s, Step(s, e), Passed(e))
  {
    match e
    case Show(sameView, grace) => ShowConserves(s, sameView, grace);
    case Hide(animated, completion) => HideMoves(s, animated, completion);
    case HideAfter(completion) => HideAfterMoves(s, completion);
    case GraceFires(id) =>
      forall c: Completion ensures Places(Step(s, e), c) == Places(s, c) {
        assert Keys(Step(s, e), c) == Keys(s, c);
      }
    case HideFires(id) => HideFiresMoves(s, id);
    case AnimationEnds(i) => AnimationMoves(s, i);
  }

  lemma ShowConserves(s: State, sameView: bool, grace: bool)
    ensures Moves(s, DoShow(s, sameView, grace), None)
  {
    forall c: Completion ensures Places(DoShow(s, sameView, grace), c) == Places(s, c) {
      assert Keys(DoShow(s, sameView, grace), c) == Keys(s, c);
    }
  }

  lemma StepKeepsInvariant(s: State, e: Event)
    requires Invariant(s) && Enabled(s, e)
    ensures Invariant(Step(s, e))
  {
    hide Keys, Places;
    StepConserves(s, e);
    StepKeepsTimers(s, e);
    forall c: Completion ensures Places(Step(s, e), c) <= 1 {
      assert Places(s, c) <= 1;
    }
  }

  // What timers can still fire, and which keys have been given out.
  ghost predicate Timers(s: State) {
    && (forall id <- s.graceLive :: s.graceTimer.Some?)
    && (forall id <- s.graceLive :: id < s.nextId)
    && (forall id <- s.hideLive :: id < s.nextId)
    && (forall k <- s.timerActions :: k < s.nextId)
    && (forall id <- s.hideLive :: s.hideTimer == Some(id))
  }

  lemma StepKeepsTimers(s: State, e: Event)
    requires Timers(s) && Enabled(s, e) && (e.GraceFires? ==> s.graceTimer.Some?)
    ensures Timers(Step(s, e))
  {
    hide Keys, Places, Known;
    var s' := Step(s, e);
    assert s.nextId <= s'.nextId;
    assert forall id <- s'.graceLive :: id in s.graceLive || (id == s.nextId < s'.nextId);
    assert forall id <- s'.hideLive :: id in s.hideLive || (id == s.nextId < s'.nextId);
    assert forall k <- s'.timerActions :: k in s.timerActions || (k == s.nextId < s'.nextId);
    assert forall id <- s'.hideLive :: s'.hideTimer == Some(id);
  }

  // ---- Runs ----

  ghost predicate Feasible(s: State, events: seq<Event>)
    requires Invariant(s)
    decreases |events|
  {
    events == [] ||
    (Enabled(s, events[0]) && (StepKeepsInvariant(s, events[0]); Feasible(Step(s, events[0]), events[1..])))
  }

  ghost function After(s: State, events: seq<Event>): (s': State)
    requires Invariant(s) && Feasible(s, events)
    ensures Invariant(s')
    decreases |events|
  {
    if events == [] then s
    else
      StepKeepsInvariant(s, events[0]);
      After(Step(s, events[0]), events[1..])
  }

  /** A grace timer that fires always finds the remembered timer: the forced unwrap is safe. */
  lemma GraceTimerIsSet(events: seq<Event>, id: nat)
    requires Invariant(START) && Feasible(START, events) && id in After(START, events).graceLive
    ensures After(START, events).graceTimer.Some?
  {
    assert Invariant(After(START, events));
  }

  // ---- Hiding lasts ----

  // No grace timer can show the overlay.
  predicate Disarmed(s: State) {
    s.graceTimer.Some? ==> s.graceTimer.value !in s.graceLive
  }

  lemma {:induction false} DisarmedRun(s: State, events: seq<Event>)
    requires Invariant(s) && Feasible(s, events) && Disarmed(s)
    requires forall e <- events :: !e.Show?
    ensures Disarmed(After(s, events)) && (s.hidden ==> After(s, events).hidden)
    decreases |events|
  {
    if events != [] {
      StepKeepsInvariant(s, events[0]);
      assert !events[0].Show?;
      DisarmedRun(Step(s, events[0]), events[1..]);
    }
  }

  /** Once hidden after a hide call, the overlay stays hidden until the next show, however many
      grace timers were started before. A hide without animation hides at once; one with
      animation at the latest when its animation ends. */
  lemma HideLasts(s: State, animated: bool, completion: Option<Completion>, events: seq<Event>)
    requires Invariant(s) && Enabled(s, Hide(animated, completion))
    requires Invariant(Step(s, Hide(animated, completion))) && Feasible(Step(s, Hide(animated, completion)), events)
    requires forall e <- events :: !e.Show?
    ensures var s1 := Step(s, Hide(animated, completion));
            && (!animated ==> s1.hidden)
            && (s1.hidden ==> After(s1, events).hidden)
            && (!s1.hidden ==> s1.animations == s.animations + [completion] && !s.hidden)
            && ((exists e <- events :: e.AnimationEnds?) ==> After(s1, events).hidden)
  {
    var s1 := Step(s, Hide(animated, completion));
    DisarmedRun(s1, events);
    if exists e <- events :: e.AnimationEnds? {
      EndHides(s1, events);
    }
  }

  lemma {:induction false} EndHides(s: State, events: seq<Event>)
    requires Invariant(s) && Feasible(s, events) && Disarmed(s)
    requires forall e <- events :: !e.Show?
    requires exists e <- events :: e.AnimationEnds?
    ensures After(s, events).hidden
    decreases |events|
  {
    StepKeepsInvariant(s, events[0]);
    assert !events[0].Show?;
    var s1 := Step(s, events[0]);
    if events[0].AnimationEnds? {
      DisarmedRun(s1, events[1..]);
    } else {
      assert events == [events[0]] + events[1..];
      EndHides(s1, events[1..]);
    }
  }

  // ---- Completions over runs ----

  // A completion that has run keeps having run, and one whose timer was superseded stays where
  // it is: it is neither run nor dropped.
  lemma {:induction false} PlacesOverRuns(s: State, events: seq<Event>, c: Completion)
    requires Invariant(s) && Feasible(s, events)
    ensures c in s.ran ==> c in After(s, events).ran
    ensures c in s.dropped ==> c in After(s, events).dropped
    ensures Orphaned(s, c) ==> Orphaned(After(s, events), c) && c !in After(s, events).ran
    decreases |events|
  {
    if events == [] {
      if Orphaned(s, c) {
        OrphanedElsewhere(s, c);
      }
    } else {
      StepKeepsInvariant(s, events[0]);
      var s1 := Step(s, events[0]);
      if k :| k in Keys(s, c) && k !in s.hideLive {
        assert k in Keys(s1, c) && k !in s1.hideLive;
      }
      PlacesOverRuns(s1, events[1..], c);
    }
  }

  lemma OrphanedElsewhere(s: State, c: Completion)
    requires Invariant(s) && Keys(s, c) != {}
    ensures c !in s.ran && c !in s.dropped && Some(c) !in s.animations && |Keys(s, c)| == 1
  {
    assert |Keys(s, c)| >= 1;
    assert Places(s, c) <= 1;
    assert c in s.ran ==> multiset(s.ran)[c] >= 1;
    assert c in s.dropped ==> multiset(s.dropped)[c] >= 1;
    assert Some(c) in s.animations ==> multiset(s.animations)[Some(c)] >= 1;
  }

  /** A delayed hide that is superseded before it fires is never carried out: its completion
      stays behind and never runs. */
  lemma SupersededNeverRuns(s: State, c: Completion, newer: Option<Completion>, events: seq<Event>)
    requires Invariant(s) && Waiting(s, c) && Enabled(s, HideAfter(newer))
    requires Invariant(Step(s, HideAfter(newer))) && Feasible(Step(s, HideAfter(newer)), events)
    ensures var s' := After(Step(s, HideAfter(newer)), events);
            Orphaned(s', c) && c !in s'.ran
  {
    var s1 := Step(s, HideAfter(newer));
    var k :| k in Keys(s, c) && k in s.hideLive;
    assert k in Keys(s1, c) && k !in s1.hideLive;
    PlacesOverRuns(s1, events, c);
  }

  function Flag(b: bool): nat {
    if b then 1 else 0
  }

  lemma {:induction false} KnownOverRuns(s: State, events: seq<Event>, c: Completion)
    requires Invariant(s) && Feasible(s, events)
    ensures Known(After(s, events), c) <==> Known(s, c) || exists e <- events :: Passed(e) == Some(c)
    decreases |events|
  {
    if events != [] {
      StepKeepsInvariant(s, events[0]);
      StepConserves(s, events[0]);
      KnownOverRuns(Step(s, events[0]), events[1..], c);
      assert events == [events[0]] + events[1..];
    }
  }

  /** In every run, each completion passed to a hide call is in exactly one place: waiting on the
      live timer, orphaned, in an animation, dropped, or run; and it has run at most once. */
  lemma EveryCompletionIsSomewhere(events: seq<Event>, c: Completion)
    requires Invariant(START) && Feasible(START, events) && exists e <- events :: Passed(e) == Some(c)
    ensures var s := After(START, events);
            && Flag(Waiting(s, c)) + Flag(Orphaned(s, c)) + Flag(Some(c) in s.animations)
               + Flag(c in s.dropped) + Flag(c in s.ran) == 1
            && multiset(s.ran)[c] <= 1
            && (forall k <- Keys(s, c) | k in s.hideLive :: s.hideTimer == Some(k))
  {
    var s := After(START, events);
    assert Keys(START, c) == {};
    KnownOverRuns(START, events, c);
    assert Places(s, c) == 1;
    if Keys(s, c) != {} {
      OrphanedElsewhere(s, c);
      var k :| k in Keys(s, c);
      OneKey(Keys(s, c), k);
    } else {
      assert |Keys(s, c)| == 0;
    }
  }

  lemma OneKey(keys: set<nat>, k: nat)
    requires k in keys && |keys| == 1
    ensures keys == {k}
  {
    assert |keys - {k}| == 0;
  }

  // ---- Showing after a grace period ----

  lemma {:induction false} RememberedRun(s: State, events: seq<Event>, id: nat)
    requires Invariant(s) && Feasible(s, events) && s.graceTimer == Some(id)
    requires forall e <- events :: !e.Show?
    ensures After(s, events).graceTimer == Some(id)
    ensures (forall e <- events :: e.HideAfter? || e.AnimationEnds?) && id in s.graceLive ==>
              id in After(s, events).graceLive
    decreases |events|
  {
    hide Invariant, Enabled;
    if events != [] {
      StepKeepsInvariant(s, events[0]);
      assert !events[0].Show?;
      var s1 := Step(s, events[0]);
      RememberedRun(s1, events[1..], id);
      if (forall e <- events :: e.HideAfter? || e.AnimationEnds?) && id in s.graceLive {
        assert events[0].HideAfter? || events[0].AnimationEnds?;
        assert id in s1.graceLive && forall e <- events[1..] :: e.HideAfter? || e.AnimationEnds?;
      }
    }
  }

  /** A show with a grace period ends up visible when its timer fires, whatever else happens before
      except another show. The timer stays armed at least until a hide or another timer comes. */
  lemma GraceShows(s: State, sameView: bool, events: seq<Event>)
    requires Invariant(s) && Invariant(Step(s, Show(sameView, true)))
    requires Feasible(Step(s, Show(sameView, true)), events) && forall e <- events :: !e.Show?
    ensures var s1 := Step(s, Show(sameView, true));
            var s' := After(s1, events);
            && s1.attached && s1.hidden == (s.hidden || !s.attached || !sameView)
            && (s.nextId in s'.graceLive ==>
                  Enabled(s', GraceFires(s.nextId)) && s'.graceTimer.Some? && !Step(s', GraceFires(s.nextId)).hidden)
            && ((forall e <- events :: e.HideAfter? || e.AnimationEnds?) ==> s.nextId in s'.graceLive)
  {
    RememberedRun(Step(s, Show(sameView, true)), events, s.nextId);
  }

  // ---- Completions that run ----

  /** A hide of a visible overlay runs its completion: at once without animation, and otherwise when
      its animation ends. A hide of a hidden one never does. */
  lemma HideRuns(s: State, animated: bool, completion: Completion)
    requires Invariant(s) && Enabled(s, Hide(animated, Some(completion)))
    ensures var s1 := Step(s, Hide(animated, Some(completion)));
            if s.hidden then completion in s1.dropped && completion !in s1.ran
            else if !animated then completion in s1.ran && s1.hidden && !s1.attached
            else
              var i := |s.animations|;
              && i < |s1.animations| && Enabled(s1, AnimationEnds(i))
              && var s2 := Step(s1, AnimationEnds(i));
                 completion in s2.ran && s2.hidden && !s2.attached
  {
    assert Places(s, completion) == 0;
    assert completion in s.ran ==> multiset(s.ran)[completion] >= 1;
  }

  /** The completion of a delayed hide runs if its timer fires while the overlay is visible and the
      animation that starts then ends. */
  lemma DelayedHideRuns(s: State, completion: Completion)
    requires Invariant(s) && Enabled(s, HideAfter(Some(completion))) && !s.hidden
    ensures var s1 := Step(s, HideAfter(Some(completion)));
            && Enabled(s1, HideFires(s.nextId))
            && var s2 := Step(s1, HideFires(s.nextId));
               var i := |s.animations|;
            && i < |s2.animations| && Enabled(s2, AnimationEnds(i))
            && completion in Step(s2, AnimationEnds(i)).ran && Step(s2, AnimationEnds(i)).hidden
  {
  }

  // ---- Showing does not always last ----

  predicate Call(e: Event) {
    e.Show? || e.Hide? || e.HideAfter?
  }

  // Nothing that is already under way will hide the overlay.
  predicate NothingPending(s: State) {
    s.animations == [] && s.hideLive == {}
  }

  lemma {:induction false} VisibleRun(s: State, events: seq<Event>)
    requires Invariant(s) && Feasible(s, events) && NothingPending(s) && !s.hidden
    requires forall e <- events :: !Call(e)
    ensures !After(s, events).hidden
    decreases |events|
  {
    if events != [] {
      StepKeepsInvariant(s, events[0]);
      assert !Call(events[0]);
      VisibleRun(Step(s, events[0]), events[1..]);
    }
  }

  // The events can happen, and none of them is a call.
  ghost predicate Undisturbed(s: State, events: seq<Event>) {
    Invariant(s) && Feasible(s, events) && forall e <- events :: !Call(e)
  }

  ghost predicate StaysVisible(s: State) {
    forall events | Undisturbed(s, events) :: !After(s, events).hidden
  }

  /** A show without grace period lasts until the next call exactly if no hide animation and no
      hide timer was under way. Otherwise the old animation hides what was just shown. */
  lemma ShowLasts(s: State, sameView: bool)
    requires Invariant(s)
    ensures var s1 := Step(s, Show(sameView, false));
            s1.attached && !s1.hidden && (NothingPending(s) <==> StaysVisible(s1))
  {
    hide Places, Keys;
    StepKeepsInvariant(s, Show(sameView, false));
    var s1 := Step(s, Show(sameView, false));
    if NothingPending(s) {
      forall events | Undisturbed(s1, events) ensures !After(s1, events).hidden {
        VisibleRun(s1, events);
      }
    } else if s.animations != [] {
      AnimationHides(s1, 0);
      assert Undisturbed(s1, [AnimationEnds(0)]);
    } else {
      var id :| id in s1.hideLive;
      TimerHides(s1, id);
    }
  }

  lemma TimerHides(s: State, id: nat)
    requires Invariant(s) && id in s.hideLive && !s.hidden
    ensures !StaysVisible(s)
  {
    hide Places, Keys;
    StepKeepsInvariant(s, HideFires(id));
    var s1 := Step(s, HideFires(id));
    var i := |s1.animations| - 1;
    AnimationHides(s1, i);
    var events := [HideFires(id), AnimationEnds(i)];
    assert events[1..] == [AnimationEnds(i)];
    assert Undisturbed(s, events) && After(s, events).hidden;
  }

  lemma AnimationHides(s: State, i: nat)
    requires Invariant(s) && i < |s.animations|
    ensures Feasible(s, [AnimationEnds(i)]) && After(s, [AnimationEnds(i)]).hidden
  {
    StepKeepsInvariant(s, AnimationEnds(i));
    assert [AnimationEnds(i)][1..] == [];
    assert Feasible(Step(s, AnimationEnds(i)), []);
  }

  /** This happens: a hide with animation, a show, and then the animation ends. No call follows the
      show, and yet the overlay ends hidden. */
  lemma ShownThenHidden()
    ensures Invariant(START)
    ensures var s1 := Step(START, Show(false, false));
            Enabled(s1, Hide(true, None)) && Invariant(Step(s1, Hide(true, None)))
    ensures var shown := Step(Step(Step(START, Show(false, false)), Hide(true, None)), Show(true, false));
            && !shown.hidden && Invariant(shown) && Feasible(shown, [AnimationEnds(0)])
            && After(shown, [AnimationEnds(0)]).hidden
  {
    hide Places, Keys;
    StartIsInvariant();
    StepKeepsInvariant(START, Show(false, false));
    var s1 := Step(START, Show(false, false));
    StepKeepsInvariant(s1, Hide(true, None));
    var s2 := Step(s1, Hide(true, None));
    StepKeepsInvariant(s2, Show(true, false));
    AnimationHides(Step(s2, Show(true, false)), 0);
  }

  // ---- The overlay object ----

  class PKHUD {
    var isHidden: bool
    var isAttached: bool
    var graceTimer: Option<nat>
    var hideTimer: Option<nat>
    var graceLive: set<nat>
    var hideLive: set<nat>
    var timerActions: map<nat, Completion>
    var animations: seq<Option<Completion>>
    ghost var dropped: seq<Completion>
    ghost var ran: seq<Completion>
    var nextId: nat

    ghost function Current(): State
      reads this
    {
      State(isHidden, isAttached, graceTimer, hideTimer, graceLive, hideLive, timerActions, animations,
            dropped, ran, nextId)
    }

    ghost predicate Valid()
      reads this
    {
      Invariant(Current())
    }

    constructor ()
      ensures Valid() && Current() == START
    {
      StartIsInvariant();
      isHidden, isAttached, graceTimer, hideTimer := true, false, None, None;
      graceLive, hideLive, timerActions, animations := {}, {}, map[], [];
      dropped, ran, nextId := [], [], 0;
    }

    method InvalidateGraceTimer()
      modifies this`graceLive
      ensures graceLive == Invalidate(old(graceLive), graceTimer)
    {
      if graceTimer.Some? {
        graceLive := graceLive - {graceTimer.value};
      }
    }

    method ShowNow(sameView: bool, grace: bool)
      requires Valid() && Enabled(Current(), Show(sameView, grace))
      modifies this
      ensures Valid()
      ensures Current() == DoShow(old(Current()), sameView, grace)
    {
      StepKeepsInvariant(Current(), Show(sameView, grace));
      hide Invariant, Enabled;
      if !(isAttached && sameView) {
        isAttached := true;
        isHidden := true;
      }
      if grace {
        graceLive := graceLive + {nextId};
        graceTimer := Some(nextId);
        nextId := nextId + 1;
      } else {
        ShowFrame();
      }
    }

    method ShowFrame()
      modifies this
      ensures Current() == ShowContent(old(Current()))
    {
      InvalidateGraceTimer();
      isHidden := false;
    }

    method HideNow(animated: bool, completion: Option<Completion>)
      modifies this
      ensures Current() == DoHide(old(Current()), animated, completion)
      ensures old(Valid() && Enabled(Current(), Hide(animated, completion))) ==> Valid()
    {
      if Valid() && Enabled(Current(), Hide(animated, completion)) {
        StepKeepsInvariant(Current(), Hide(animated, completion));
      }
      InvalidateGraceTimer();
      if isHidden {
        dropped := dropped + Listed(completion);
        return;
      }
      if animated {
        animations := animations + [completion];
      } else {
        FinalizeHide(completion);
      }
    }

    method FinalizeHide(completion: Option<Completion>)
      modifies this
      ensures Current() == Finalize(old(Current()), completion)
    {
      isHidden := true;
      isAttached := false;
      ran := ran + Listed(completion);
    }

    method HideAfterDelay(completion: Option<Completion>)
      requires Valid() && Enabled(Current(), HideAfter(completion))
      modifies this
      ensures Valid()
      ensures Current() == DoHideAfter(old(Current()), completion)
    {
      StepKeepsInvariant(Current(), HideAfter(completion));
      hide Invariant, Enabled;
      var key := nextId;
      nextId := nextId + 1;
      if completion.Some? {
        timerActions := timerActions[key := completion.value];
      }
      if hideTimer.Some? {
        hideLive := hideLive - {hideTimer.value};
      }
      hideLive := hideLive + {key};
      hideTimer := Some(key);
    }

    method PerformDelayedHide(id: nat)
      requires Valid() && Enabled(Current(), HideFires(id))
      modifies this
      ensures Valid()
      ensures Current() == DoHideFires(old(Current()), id)
    {
      StepKeepsInvariant(Current(), HideFires(id));
      assert id in hideLive;
      hide Invariant, Enabled;
      hideLive := hideLive - {id};
      var completion := None;
      if id in timerActions {
        completion := Some(timerActions[id]);
      }
      timerActions := timerActions - {id};
      HideNow(true, completion);
    }

    method HandleGraceTimer(id: nat)
      requires Valid() && Enabled(Current(), GraceFires(id))
      modifies this
      ensures Valid()
      ensures Current() == DoGraceFires(old(Current()), id)
    {
      StepKeepsInvariant(Current(), GraceFires(id));
      assert id in graceLive && graceTimer.Some?;
      hide Invariant, Enabled;
      if graceTimer.value in graceLive {
        ShowFrame();
      }
      graceLive := graceLive - {id};
    }

    method FinishAnimation(i: nat)
      requires Valid() && Enabled(Current(), AnimationEnds(i))
      modifies this
      ensures Valid()
      ensures Current() == DoAnimationEnds(old(Current()), i)
    {
      StepKeepsInvariant(Current(), AnimationEnds(i));
      assert i < |animations|;
      hide Invariant, Enabled;
      var completion := animations[i];
      animations := animations[..i] + animations[i + 1..];
      FinalizeHide(completion);
    }
  }
}
