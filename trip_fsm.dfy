/** The trip state machine of lib/fsm-types.ts: a constant table of
    transitions between six trip states, the queries over it, the context a
    guard reads, the panel-visibility policy and the main-button
    configuration. Everything here is a pure function of its arguments. */
module TripFsm {
  import opened Common

  datatype RaceState = Offline | WaitingStart | Boarding | InTransit | ArrivedStop | Finished

  datatype Action =
    | StartShift | StartBoarding | DepartStop | ArriveStop
    | ContinueBoarding | FinishTrip | EndShift | NoAction

  /** The snapshot a guard inspects (`RaceContext`). */
  datatype RaceContext = RaceContext(
    currentStopIndex: int,
    totalStops: int,
    freeSeats: int,
    occupiedSeats: int,
    hasActiveReservations: bool,
    queueSize: int,
    isLastStop: bool,
    tripId: string)

  /** The guards the table uses; an edge without a guard always fires. */
  datatype Guard = NotLastStop | AtLastStop

  datatype Transition = Transition(from: RaceState, to: RaceState, action: Action, guard: Option<Guard>)

  /** `FSM_TRANSITIONS`. */
  const Transitions: seq<Transition> := [
    Transition(Offline, WaitingStart, StartShift, None),
    Transition(WaitingStart, Boarding, StartBoarding, None),
    Transition(Boarding, InTransit, DepartStop, None),
    Transition(InTransit, ArrivedStop, ArriveStop, None),
    Transition(ArrivedStop, Boarding, ContinueBoarding, Some(NotLastStop)),
    Transition(ArrivedStop, Finished, FinishTrip, Some(AtLastStop)),
    Transition(Finished, Offline, EndShift, None)
  ]

  predicate GuardHolds(g: Guard, ctx: RaceContext)
  {
    match g
    case NotLastStop => !ctx.isLastStop
    case AtLastStop => ctx.isLastStop
  }

  /** `!t.guard || t.guard(context)`. */
  predicate Enabled(t: Transition, ctx: RaceContext)
  {
    t.guard.None? || GuardHolds(t.guard.value, ctx)
  }

  predicate Matches(t: Transition, s: RaceState, a: Action)
  {
    t.from == s && t.action == a
  }

  /** At most one entry of `table` per (from, action) pair. */
  predicate Deterministic(table: seq<Transition>)
  {
    forall i, j :: 0 <= i < j < |table| ==> !Matches(table[j], table[i].from, table[i].action)
  }

  /** `FSM_TRANSITIONS.find(t => t.from === s && t.action === a)`, as the
      index of the first matching entry at or after `k`. */
  function FindFrom(table: seq<Transition>, s: RaceState, a: Action, k: nat): (r: Option<nat>)
    requires k <= |table|
    ensures r.Some? ==> k <= r.value < |table| && Matches(table[r.value], s, a)
                        && forall j :: k <= j < r.value ==> !Matches(table[j], s, a)
    ensures r.None? ==> forall j :: k <= j < |table| ==> !Matches(table[j], s, a)
    decreases |table| - k
  {
    if k == |table| then None
    else if Matches(table[k], s, a) then Some(k)
    else FindFrom(table, s, a, k + 1)
  }

  function Find(s: RaceState, a: Action): (r: Option<nat>)
    ensures r.Some? ==> r.value < |Transitions| && Matches(Transitions[r.value], s, a)
    ensures r.None? ==> forall j :: 0 <= j < |Transitions| ==> !Matches(Transitions[j], s, a)
  {
    FindFrom(Transitions, s, a, 0)
  }

  /** The table is deterministic, and `none` appears in no entry. */
  lemma TableWellFormed()
    ensures Deterministic(Transitions)
    ensures forall i :: 0 <= i < |Transitions| ==> Transitions[i].action != NoAction
  {
  }

  /** `canTransition`: the first entry for (s, a) exists and its guard, if it
      has one, holds. Because the table is deterministic this is the same as
      "some entry for (s, a) is enabled". */
  function CanTransition(s: RaceState, a: Action, ctx: RaceContext): (r: bool)
    ensures r <==> exists i :: 0 <= i < |Transitions| && Matches(Transitions[i], s, a)
                              && Enabled(Transitions[i], ctx)
  {
    TableWellFormed();
    match Find(s, a)
    case None => false
    case Some(i) => Enabled(Transitions[i], ctx)
  }

  /** `getNextState`: `null` exactly when the move is refused, otherwise the
      target of the enabled entry for (s, a). */
  function NextState(s: RaceState, a: Action, ctx: RaceContext): (r: Option<RaceState>)
    ensures r.None? <==> !CanTransition(s, a, ctx)
    ensures r.Some? ==> exists i :: 0 <= i < |Transitions| && Matches(Transitions[i], s, a)
                                   && Enabled(Transitions[i], ctx) && Transitions[i].to == r.value
  {
    if !CanTransition(s, a, ctx) then None
    else
      match Find(s, a)
      case None => None
      case Some(i) => Some(Transitions[i].to)
  }

  /** The actions of the enabled entries of `table` leaving `s`, in table order. */
  function AvailableIn(table: seq<Transition>, s: RaceState, ctx: RaceContext): (r: seq<Action>)
    ensures |r| <= |table|
    decreases |table|
  {
    if table == [] then []
    else
      (if table[0].from == s && Enabled(table[0], ctx) then [table[0].action] else [])
      + AvailableIn(table[1..], s, ctx)
  }

  /** An action is listed exactly when some enabled entry of the table
      leaves `s` by it. */
  lemma {:induction false} AvailableInMembers(table: seq<Transition>, s: RaceState, ctx: RaceContext, a: Action)
    ensures a in AvailableIn(table, s, ctx) <==>
              exists i :: 0 <= i < |table| && Matches(table[i], s, a) && Enabled(table[i], ctx)
    decreases |table|
  {
    if table != [] {
      AvailableInMembers(table[1..], s, ctx, a);
      assert forall i :: 1 <= i < |table| ==> table[i] == table[1..][i - 1];
      if a in AvailableIn(table[1..], s, ctx) {
        var i :| 0 <= i < |table[1..]| && Matches(table[1..][i], s, a) && Enabled(table[1..][i], ctx);
        assert Matches(table[i + 1], s, a) && Enabled(table[i + 1], ctx);
      }
    }
  }

  /** `getAvailableActions`. */
  function AvailableActions(s: RaceState, ctx: RaceContext): seq<Action>
  {
    AvailableIn(Transitions, s, ctx)
  }

  /** An action is offered exactly when `canTransition` accepts it. */
  lemma AvailableIffCanTransition(s: RaceState, a: Action, ctx: RaceContext)
    ensures a in AvailableActions(s, ctx) <==> CanTransition(s, a, ctx)
  {
    AvailableInMembers(Transitions, s, ctx, a);
  }

  /** `none` never moves the machine, from any state. */
  lemma NoActionNeverTransitions(s: RaceState, ctx: RaceContext)
    ensures !CanTransition(s, NoAction, ctx) && NextState(s, NoAction, ctx) == None
  {
    TableWellFormed();
  }

  /** From `RACE_ARRIVED_STOP`, `continue_boarding` fires exactly off the last
      stop and `finish_trip` exactly at it, so exactly one of them is offered. */
  lemma ArrivedStopChoice(ctx: RaceContext)
    ensures CanTransition(ArrivedStop, ContinueBoarding, ctx) <==> !ctx.isLastStop
    ensures CanTransition(ArrivedStop, FinishTrip, ctx) <==> ctx.isLastStop
    ensures AvailableActions(ArrivedStop, ctx) == if ctx.isLastStop then [FinishTrip] else [ContinueBoarding]
  {
    ArrivedStopNext(ctx);
    AvailableInSkip(Transitions, ArrivedStop, ctx, 4);
    ArrivedStopTail(ctx);
  }

  /** The last three entries of the table offer one action from
      `RACE_ARRIVED_STOP`, chosen by the last-stop flag. */
  lemma ArrivedStopTail(ctx: RaceContext)
    ensures AvailableIn(Transitions[4..], ArrivedStop, ctx) == if ctx.isLastStop then [FinishTrip] else [ContinueBoarding]
  {
    var t := Transitions;
    var tail := [t[5], t[6]];
    assert t[4..] == [t[4]] + tail && tail[1..] == [t[6]] && [t[6]][1..] == [];
    var r6 := AvailableIn([t[6]], ArrivedStop, ctx);
    assert r6 == [];
    var r5 := AvailableIn(tail, ArrivedStop, ctx);
    assert r5 == (if ctx.isLastStop then [FinishTrip] else []) + r6;
  }

  /** The two entries leaving `RACE_ARRIVED_STOP` are found at their places
      in the table. */
  lemma ArrivedStopEntries()
    ensures Find(ArrivedStop, ContinueBoarding) == Some(4)
    ensures Find(ArrivedStop, FinishTrip) == Some(5)
  {
    var t := Transitions;
    assert FindFrom(t, ArrivedStop, ContinueBoarding, 4) == Some(4);
    assert FindFrom(t, ArrivedStop, FinishTrip, 5) == Some(5);
    assert FindFrom(t, ArrivedStop, FinishTrip, 4) == Some(5);
    assert FindFrom(t, ArrivedStop, ContinueBoarding, 2) == Some(4);
    assert FindFrom(t, ArrivedStop, FinishTrip, 2) == Some(5);
  }

  /** The moves out of `RACE_ARRIVED_STOP`, in closed form. */
  lemma ArrivedStopNext(ctx: RaceContext)
    ensures NextState(ArrivedStop, FinishTrip, ctx) == if ctx.isLastStop then Some(Finished) else None
    ensures NextState(ArrivedStop, ContinueBoarding, ctx) == if ctx.isLastStop then None else Some(Boarding)
  {
    ArrivedStopEntries();
  }

  /** Entries that do not leave `s` contribute nothing to the actions offered
      from `s`. */
  lemma {:induction false} AvailableInSkip(table: seq<Transition>, s: RaceState, ctx: RaceContext, k: nat)
    requires k <= |table|
    requires forall j :: 0 <= j < k ==> table[j].from != s
    ensures AvailableIn(table, s, ctx) == AvailableIn(table[k..], s, ctx)
    decreases k
  {
    if k > 0 {
      assert table[1..][k - 1..] == table[k..];
      AvailableInSkip(table[1..], s, ctx, k - 1);
    }
  }

  /** The trip reaches `RACE_FINISHED` only by `finish_trip` from
      `RACE_ARRIVED_STOP` with the last-stop flag set, and always does then. */
  lemma FinishedOnlyAtLastStop(s: RaceState, a: Action, ctx: RaceContext)
    ensures NextState(s, a, ctx) == Some(Finished) <==> s == ArrivedStop && a == FinishTrip && ctx.isLastStop
  {
    if NextState(s, a, ctx) == Some(Finished) {
      var i :| 0 <= i < |Transitions| && Matches(Transitions[i], s, a)
               && Enabled(Transitions[i], ctx) && Transitions[i].to == Finished;
    }
    if s == ArrivedStop && a == FinishTrip && ctx.isLastStop {
      assert Matches(Transitions[5], s, a) && Enabled(Transitions[5], ctx);
    }
  }

  /** Whatever the context, every state offers exactly one action: the
      machine is a single cycle with one branch point. */
  lemma ExactlyOneAvailable(s: RaceState, ctx: RaceContext)
    ensures |AvailableActions(s, ctx)| == 1
  {
  }

  // ---------------------------------------------------------------------
  // createRaceContext and validateTransition
  // ---------------------------------------------------------------------

  /** The arguments of `createRaceContext`. */
  datatype RaceParams = RaceParams(
    currentStopIndex: int,
    totalStops: int,
    freeSeats: int,
    occupiedSeats: int,
    hasActiveReservations: bool,
    queueSize: int,
    tripId: string)

  /** `createRaceContext`: every argument copied, and the last-stop flag
      derived from the stop index. */
  function CreateRaceContext(p: RaceParams): RaceContext
  {
    RaceContext(p.currentStopIndex, p.totalStops, p.freeSeats, p.occupiedSeats,
                p.hasActiveReservations, p.queueSize,
                p.currentStopIndex >= p.totalStops - 1, p.tripId)
  }

  /** With a context built by `createRaceContext`, from `RACE_ARRIVED_STOP`
      the trip finishes exactly when the stop index has reached the last
      stop, and otherwise goes back to boarding. */
  lemma ArrivalRouting(p: RaceParams)
    ensures var ctx := CreateRaceContext(p);
            (NextState(ArrivedStop, FinishTrip, ctx) == Some(Finished) <==> p.currentStopIndex >= p.totalStops - 1)
            && (NextState(ArrivedStop, ContinueBoarding, ctx) == Some(Boarding) <==> p.currentStopIndex < p.totalStops - 1)
  {
    ArrivedStopNext(CreateRaceContext(p));
  }

  function StateName(s: RaceState): string
  {
    match s
    case Offline => "RACE_OFFLINE"
    case WaitingStart => "RACE_WAITING_START"
    case Boarding => "RACE_BOARDING"
    case InTransit => "RACE_IN_TRANSIT"
    case ArrivedStop => "RACE_ARRIVED_STOP"
    case Finished => "RACE_FINISHED"
  }

  function ActionName(a: Action): string
  {
    match a
    case StartShift => "start_shift"
    case StartBoarding => "start_boarding"
    case DepartStop => "depart_stop"
    case ArriveStop => "arrive_stop"
    case ContinueBoarding => "continue_boarding"
    case FinishTrip => "finish_trip"
    case EndShift => "end_shift"
    case NoAction => "none"
  }

  /** `availableActions.join(", ")`. */
  function JoinActions(xs: seq<Action>): string
    decreases |xs|
  {
    if xs == [] then ""
    else if |xs| == 1 then ActionName(xs[0])
    else ActionName(xs[0]) + ", " + JoinActions(xs[1..])
  }

  /** The refusal text: the action, the state, and the actions that are
      available from it. */
  function BlockedMessage(from: RaceState, a: Action, available: seq<Action>): string
  {
    "Переход " + ActionName(a) + " недопустим из состояния " + StateName(from)
      + ". Доступные действия: " + JoinActions(available)
  }

  /** The result of `validateTransition`. */
  datatype Validation = Validation(valid: bool, error: Option<string>, nextState: Option<RaceState>)

  /** `validateTransition`: valid with the next state when the move is
      allowed; otherwise invalid, with no next state and a message listing the
      actions that are available instead. */
  function ValidateTransition(from: RaceState, a: Action, ctx: RaceContext): (v: Validation)
    ensures v.valid <==> CanTransition(from, a, ctx)
    ensures v.valid ==> v.error.None? && v.nextState.Some?
                        && exists i :: 0 <= i < |Transitions| && Matches(Transitions[i], from, a)
                                       && Enabled(Transitions[i], ctx) && Transitions[i].to == v.nextState.value
    ensures !v.valid ==> v.nextState.None? && v.error == Some(BlockedMessage(from, a, AvailableActions(from, ctx)))
  {
    match NextState(from, a, ctx)
    case None => Validation(false, Some(BlockedMessage(from, a, AvailableActions(from, ctx))), None)
    case Some(next) => Validation(true, None, Some(next))
  }

  // ---------------------------------------------------------------------
  // getPanelVisibility
  // ---------------------------------------------------------------------

  datatype QueuePanelMode = QueueHidden | QueueActive | QueueLocked
  datatype ReservationPanelMode = ReservationHidden | ReservationWaiting | ReservationConfirming | ReservationExpired
  datatype CashPanelMode = CashHidden | CashActive

  datatype PanelVisibility = PanelVisibility(
    mainButton: bool,
    queue: QueuePanelMode,
    reservation: ReservationPanelMode,
    cash: CashPanelMode)

  const AllHidden := PanelVisibility(true, QueueHidden, ReservationHidden, CashHidden)

  /** `getPanelVisibility`. The source's `default` branch cannot be reached
      with a value of the state type, so it has no counterpart here. */
  function GetPanelVisibility(s: RaceState, ctx: RaceContext): PanelVisibility
  {
    match s
    case Offline => AllHidden
    case WaitingStart => AllHidden
    case Boarding =>
      PanelVisibility(true,
        if ctx.queueSize > 0 then QueueActive else QueueHidden,
        if ctx.hasActiveReservations || ctx.currentStopIndex == 0 then ReservationWaiting else ReservationHidden,
        CashActive)
    case InTransit => AllHidden
    case ArrivedStop =>
      PanelVisibility(true,
        if ctx.queueSize > 0 then QueueActive else QueueHidden,
        if ctx.hasActiveReservations then ReservationWaiting else ReservationHidden,
        CashActive)
    case Finished => AllHidden
  }

  /** Away from a stop every panel is hidden; the main button is always shown;
      the queue is active only at a stop with somebody queued; cash is active
      exactly at a stop; the reservation panel waits while boarding exactly
      when reservations are active or the trip is at its first stop, and at an
      arrival exactly when reservations are active. The modes `locked`,
      `confirming` and `expired` are never produced. */
  lemma PanelPolicy(s: RaceState, ctx: RaceContext)
    ensures var v := GetPanelVisibility(s, ctx);
            v.mainButton
            && (s in {Offline, WaitingStart, InTransit, Finished} ==> v == AllHidden)
            && (v.queue == QueueActive <==> (s == Boarding || s == ArrivedStop) && ctx.queueSize > 0)
            && (v.cash == CashActive <==> s == Boarding || s == ArrivedStop)
            && (s == Boarding ==> (v.reservation == ReservationWaiting <==> ctx.hasActiveReservations || ctx.currentStopIndex == 0))
            && (s == ArrivedStop ==> (v.reservation == ReservationWaiting <==> ctx.hasActiveReservations))
            && v.queue != QueueLocked
            && v.reservation != ReservationConfirming && v.reservation != ReservationExpired
  {
  }

  /** Panels that are shown while boarding stay shown at an arrival with the
      same context, except a reservation panel kept open only by the first
      stop. */
  lemma PanelsAtArrivalFollowBoarding(ctx: RaceContext)
    ensures GetPanelVisibility(ArrivedStop, ctx).queue == GetPanelVisibility(Boarding, ctx).queue
    ensures GetPanelVisibility(ArrivedStop, ctx).reservation == ReservationWaiting
            ==> GetPanelVisibility(Boarding, ctx).reservation == ReservationWaiting
  {
  }

  // ---------------------------------------------------------------------
  // getButtonConfig and RACE_STATE_TO_BUTTON
  // ---------------------------------------------------------------------

  datatype ButtonConfig = ButtonConfig(caption: string, action: Action, enabled: bool)

  /** The action each state's main button proposes, in both tables. */
  function ButtonAction(s: RaceState): Action
  {
    match s
    case Offline => StartShift
    case WaitingStart => StartBoarding
    case Boarding => DepartStop
    case InTransit => ArriveStop
    case ArrivedStop => ContinueBoarding
    case Finished => EndShift
  }

  function RussianLabel(s: RaceState): string
  {
    match s
    case Offline => "Выйти на линию"
    case WaitingStart => "Начать посадку"
    case Boarding => "Отправиться"
    case InTransit => "Прибыл"
    case ArrivedStop => "Продолжить посадку"
    case Finished => "Завершить рейс"
  }

  function EnglishLabel(s: RaceState): string
  {
    match s
    case Offline => "Start Shift"
    case WaitingStart => "Start Boarding"
    case Boarding => "Depart"
    case InTransit => "Arrived"
    case ArrivedStop => "Continue Boarding"
    case Finished => "End Shift"
  }

  /** `getButtonConfig(state, language)`: labels exist for `ru` and `en`; any
      other language falls back to the Russian ones. */
  function GetButtonConfig(s: RaceState, language: string): ButtonConfig
  {
    ButtonConfig(if language == "en" then EnglishLabel(s) else RussianLabel(s), ButtonAction(s), true)
  }

  /** `RACE_STATE_TO_BUTTON`, the table the trip button reads. */
  function RaceStateToButton(s: RaceState): ButtonConfig
  {
    var caption := match s
      case ArrivedStop => "Продолжить"
      case _ => RussianLabel(s);
    ButtonConfig(caption, ButtonAction(s), true)
  }

  /** Both tables agree on the proposed action and always enable the button;
      the action is never `none`. */
  lemma ButtonTablesAgree(s: RaceState, language: string)
    ensures GetButtonConfig(s, language).action == RaceStateToButton(s).action
    ensures GetButtonConfig(s, language).enabled && RaceStateToButton(s).enabled
    ensures RaceStateToButton(s).action != NoAction
    ensures RaceStateToButton(s).caption == GetButtonConfig(s, "ru").caption <==> s != ArrivedStop
  {
  }

  /** As written, the proposed action is accepted from every state except
      `RACE_ARRIVED_STOP` at the last stop: there the button always proposes
      `continue_boarding`, `validateTransition` refuses it, and the button
      never proposes `finish_trip`, so the trip cannot be finished through it. */
  lemma ButtonActionValidity(s: RaceState, ctx: RaceContext)
    ensures ValidateTransition(s, RaceStateToButton(s).action, ctx).valid
            <==> !(s == ArrivedStop && ctx.isLastStop)
    ensures forall l :: GetButtonConfig(s, l).action != FinishTrip
  {
    var a := ButtonAction(s);
    if s == ArrivedStop {
      ArrivedStopNext(ctx);
    } else {
      var i := match s
        case Offline => 0 case WaitingStart => 1 case Boarding => 2
        case InTransit => 3 case _ => 6;
      assert Matches(Transitions[i], s, a) && Enabled(Transitions[i], ctx);
    }
  }

  /** The action the main button evidently should propose: the one action
      the table offers, which at the last stop is `finish_trip`. */
  function ProposedAction(s: RaceState, ctx: RaceContext): (a: Action)
    ensures a == RaceStateToButton(s).action <==> !(s == ArrivedStop && ctx.isLastStop)
  {
    if s == ArrivedStop && ctx.isLastStop then FinishTrip else ButtonAction(s)
  }

  /** The corrected proposal is always accepted, and it is the only action
      available, so the button always moves the trip on. */
  lemma ProposedActionAlwaysValid(s: RaceState, ctx: RaceContext)
    ensures ValidateTransition(s, ProposedAction(s, ctx), ctx).valid
    ensures AvailableActions(s, ctx) == [ProposedAction(s, ctx)]
  {
    ButtonActionValidity(s, ctx);
    if s == ArrivedStop {
      ArrivedStopChoice(ctx);
    }
  }
}
