/** The registration state of the driver, kept in step with the supervisor's transition system. */
module Registration {
  import opened Wrappers
  import opened At
  import opened StatusCell
  import opened Supervisor

  /** Which cell a registration report is about. */
  datatype RegType = Creg | Cgreg | Cereg | UnknownType

  function TypeOf(d: Domain): RegType {
    match d
    case Csd => Creg
    case Psd => Cgreg
    case Eps => Cereg
  }

  class RegistrationState {
    const clock: Clock
    const csd: CellularRegistrationStatus
    const psd: CellularRegistrationStatus
    const eps: CellularRegistrationStatus
    var connState: ConnectionState
    var regStartTime: Option<nat>
    var regCheckTime: Option<nat>
    var imsiCheckTime: Option<nat>
    var registrationInterventions: nat
    ghost var events: seq<Event>

    ghost function Repr(): set<object> {
      {this, csd, psd, eps}
    }

    /** The cell of a domain. */
    function CellOf(d: Domain): Cell
      reads Repr()
    {
      match d
      case Csd => csd.View()
      case Psd => psd.View()
      case Eps => eps.View()
    }

    /** The fields hold the values of a snapshot. */
    predicate Matches(s: Snapshot)
      reads Repr()
    {
      && csd.View() == s.csd
      && psd.View() == s.psd
      && eps.View() == s.eps
      && connState == s.conn
      && regStartTime == s.startTime
      && regCheckTime == s.checkTime
      && registrationInterventions == s.interventions
    }

    /** The cells are three distinct valid cells on the shared clock. */
    ghost predicate CellsValid()
      reads Repr(), clock
    {
      && csd != psd && psd != eps && eps != csd
      && csd.clock == clock && psd.clock == clock && eps.clock == clock
      && csd.Valid() && psd.Valid() && eps.Valid()
    }

    /** The state is the one a legal sequence of supervisor events leads to, so every theorem about
        legal sequences speaks about every reachable state. */
    ghost predicate Valid()
      reads Repr(), clock
    {
      && CellsValid()
      && Legal(events)
      && Matches(Run(events))
      && Run(events).now <= clock.now
    }

    constructor (clock: Clock)
      ensures Valid() && fresh(Repr()) && this.clock == clock && events == []
    {
      this.clock := clock;
      csd := new CellularRegistrationStatus(clock);
      psd := new CellularRegistrationStatus(clock);
      eps := new CellularRegistrationStatus(clock);
      connState := Disconnected;
      regStartTime, regCheckTime, imsiCheckTime := None, None, None;
      registrationInterventions := 1;
      events := [];
    }

    /** Record an event whose effect the fields already show. */
    ghost method Record(e: Event)
      requires CellsValid() && Legal(events) && Enabled(Run(events), e)
      requires Matches(Apply(Run(events), e)) && Apply(Run(events), e).now <= clock.now
      modifies this`events
      ensures Valid() && events == old(events) + [e] && Run(events) == Apply(old(Run(events)), e)
    {
      Snoc(events, e);
      events := events + [e];
    }

    method Reset()
      requires Valid()
      modifies Repr(), clock
      ensures Valid() && old(clock.now) <= clock.now
      ensures regStartTime.Some? && regCheckTime.Some? && imsiCheckTime == None
      ensures old(clock.now) <= regStartTime.value <= regCheckTime.value <= clock.now
      ensures events == old(events) + [Restart(regStartTime.value, regCheckTime.value)]
      ensures csd.View() == psd.View() == eps.View() == BLANK && registrationInterventions == 1
      ensures connState == old(connState) && Run(events).stage == Asking(0) && Run(events).Blank()
    {
      hide Legal, Run, Replay, ClockMonotone;
      csd.Reset();
      psd.Reset();
      eps.Reset();
      var start := clock.Now();
      regStartTime := Some(start);
      var check := clock.Now();
      regCheckTime := Some(check);
      imsiCheckTime := None;
      registrationInterventions := 1;
      Record(Restart(start, check));
    }

    method SetConnectionState(state: ConnectionState)
      requires Valid() && state != Disconnected
      requires if state == Connected then Run(events).Registered() else Run(events).Blank()
      modifies this
      ensures Valid() && connState == state
      ensures events == old(events) + if old(connState) == state then [] else [Move(state)]
      ensures Run(events) == old(Run(events)).(conn := state)
      ensures registrationInterventions == old(registrationInterventions) && imsiCheckTime == old(imsiCheckTime)
      ensures regStartTime == old(regStartTime) && regCheckTime == old(regCheckTime)
    {
      if connState == state {
        return;
      }
      connState := state;
      Record(Move(state));
    }

    method CompareAndSet(regType: RegType, stat: Status)
      requires Valid()
      requires regType == Creg ==> Run(events).MayReport(Csd)
      requires regType == Cgreg ==> Run(events).MayReport(Psd)
      requires regType == Cereg ==> Run(events).MayReport(Eps)
      modifies Repr(), clock
      ensures Valid() && old(clock.now) <= clock.now
      ensures regType == UnknownType ==> events == old(events)
      ensures regType == Creg ==> events == old(events) + [Report(Csd, stat, clock.now)]
      ensures regType == Cgreg ==> events == old(events) + [Report(Psd, stat, clock.now)]
      ensures regType == Cereg ==> events == old(events) + [Report(Eps, stat, clock.now)]
      ensures forall d: Domain ::
                CellOf(d) == if TypeOf(d) == regType then old(CellOf(d)).Reported(stat, clock.now) else old(CellOf(d))
      ensures regType == Creg ==> Run(events).stage == Asking(1)
      ensures regType == Cgreg ==> Run(events).stage == Asking(2)
      ensures regType == Cereg ==> Run(events).stage == Asking(3)
      ensures connState == old(connState) && regStartTime == old(regStartTime)
      ensures registrationInterventions == old(registrationInterventions)
      ensures regCheckTime == old(regCheckTime) && imsiCheckTime == old(imsiCheckTime)
    {
      hide Legal, Run, Replay, ClockMonotone;
      match regType {
        case Creg =>
          csd.SetStatus(stat);
          Record(Report(Csd, stat, clock.now));
        case Cgreg =>
          psd.SetStatus(stat);
          Record(Report(Psd, stat, clock.now));
        case Cereg =>
          eps.SetStatus(stat);
          Record(Report(Eps, stat, clock.now));
        case UnknownType =>
      }
    }
  }
}
