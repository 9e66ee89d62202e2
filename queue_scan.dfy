/** The walk-up queue scanner of components/queue-qr-scanner.tsx. The
    component keeps four state fields (selection, current scan, scan lock,
    scanner dialog) and receives the passenger list and a `disabled` flag as
    props; its handlers rewrite the list with `map` and hand it back through
    `onUpdate`, which the parent stores. Here the component is a class whose
    `passengers` field is that stored list; the list rewrites, the visible
    queue with its renumbering and the passengers awaiting a decision are
    pure functions. The scan result arrives from the scanner dialog as a
    choice of handler (success or error): nothing here decides it. */
module QueueScan {
  import opened Common

  datatype PassengerState = Waiting | Selected | Scanning | ScanSuccess | ScanError | Accepted | Rejected

  /** What a successful scan attaches (`qrData`). */
  datatype QRData = QRData(sum: int, recipient: string, createdAt: string)

  /** `QueuePassenger`. Optional booleans are `false` when absent, as every
      use in the source reads them by truthiness. */
  datatype Passenger = Passenger(
    id: int,
    name: string,
    queuePosition: int,
    isFirst: bool,
    count: int,
    ticketCount: int,
    orderNumber: int,
    scanned: bool,
    qrError: bool,
    qrData: Option<QRData>,
    fsmState: Option<PassengerState>)

  /** The price per ticket the mock scan charges. */
  const TicketPrice: int := 320

  /** JavaScript truthiness of an optional numeric id: absent and `0` are both false. */
  predicate Truthy(id: Option<int>)
  {
    id.Some? && id.value != 0
  }

  /** Scanned without an error and without QR data: what the click handler takes for "already accepted". */
  predicate LooksAccepted(p: Passenger)
  {
    p.scanned && !p.qrError && p.qrData.None?
  }

  /** A passenger the scan button may pick on its own. */
  predicate IsScanCandidate(p: Passenger)
  {
    (!p.scanned || p.qrError) && p.fsmState != Some(ScanSuccess)
  }

  /** Scanned successfully and waiting for accept or reject. */
  predicate IsPending(p: Passenger)
  {
    p.scanned && p.qrData.Some? && !p.qrError && p.fsmState == Some(ScanSuccess)
  }

  predicate IsVisible(p: Passenger)
  {
    p.fsmState != Some(Accepted) && p.fsmState != Some(Rejected)
  }

  /** The two passengers are the same person in the same queue slot: only
      the scan fields may differ. */
  predicate SameEntry(p: Passenger, q: Passenger)
  {
    p.id == q.id && p.name == q.name && p.queuePosition == q.queuePosition && p.isFirst == q.isFirst
    && p.count == q.count && p.ticketCount == q.ticketCount && p.orderNumber == q.orderNumber
  }

  /** `passengers.find(p => p.id === id)`, as the index of the first match from `k` on. */
  function FindIndexFrom(ps: seq<Passenger>, id: int, k: nat): (r: Option<nat>)
    requires k <= |ps|
    ensures r.Some? ==> k <= r.value < |ps| && ps[r.value].id == id
                        && forall j :: k <= j < r.value ==> ps[j].id != id
    ensures r.None? ==> forall j :: k <= j < |ps| ==> ps[j].id != id
    decreases |ps| - k
  {
    if k == |ps| then None
    else if ps[k].id == id then Some(k)
    else FindIndexFrom(ps, id, k + 1)
  }

  function FindPassenger(ps: seq<Passenger>, id: int): (r: Option<Passenger>)
    ensures r.Some? ==> r.value in ps && r.value.id == id
    ensures r.None? ==> forall p :: p in ps ==> p.id != id
  {
    match FindIndexFrom(ps, id, 0)
    case None => None
    case Some(i) => Some(ps[i])
  }

  /** The first passenger from `k` on that the scan button may pick. */
  function FirstCandidateFrom(ps: seq<Passenger>, k: nat): (r: Option<nat>)
    requires k <= |ps|
    ensures r.Some? ==> k <= r.value < |ps| && IsScanCandidate(ps[r.value])
                        && forall j :: k <= j < r.value ==> !IsScanCandidate(ps[j])
    ensures r.None? ==> forall j :: k <= j < |ps| ==> !IsScanCandidate(ps[j])
    decreases |ps| - k
  {
    if k == |ps| then None
    else if IsScanCandidate(ps[k]) then Some(k)
    else FirstCandidateFrom(ps, k + 1)
  }

  /** `selectedPassengerId || passengers.find(candidate)?.id`: the selection
      when it is truthy, otherwise the id of the first candidate, if any. */
  function ScanTarget(selected: Option<int>, ps: seq<Passenger>): (r: Option<int>)
    ensures Truthy(selected) ==> r == selected
    ensures !Truthy(selected) && r.Some? ==>
              exists i :: 0 <= i < |ps| && IsScanCandidate(ps[i]) && ps[i].id == r.value
                          && forall j :: 0 <= j < i ==> !IsScanCandidate(ps[j])
    ensures !Truthy(selected) && r.None? ==> forall p :: p in ps ==> !IsScanCandidate(p)
  {
    if Truthy(selected) then selected
    else
      match FirstCandidateFrom(ps, 0)
      case None => None
      case Some(i) => Some(ps[i].id)
  }

  /** The driver's name the mock scan reports, chosen by the `language` prop. */
  function DriverName(language: string): string
  {
    if language == "ru" then "Водитель Иванов И.И." else "Driver Ivanov I."
  }

  /** The QR data the mock scan attaches for passenger `p`: the ticket sum,
      the driver's name in the screen's language and the scan time. */
  function MockQR(p: Passenger, language: string, createdAt: string): QRData
  {
    QRData(p.ticketCount * TicketPrice, DriverName(language), createdAt)
  }

  /** The list after a successful scan of `id`, carrying `qr`. */
  function MarkScanSuccess(ps: seq<Passenger>, id: int, qr: QRData): (r: seq<Passenger>)
    ensures |r| == |ps|
    ensures forall i :: 0 <= i < |ps| && ps[i].id != id ==> r[i] == ps[i]
    ensures forall i :: 0 <= i < |ps| && ps[i].id == id ==>
              SameEntry(r[i], ps[i]) && IsPending(r[i]) && r[i].qrData == Some(qr)
  {
    seq(|ps|, i requires 0 <= i < |ps| =>
      if ps[i].id == id
      then ps[i].(scanned := true, qrError := false, qrData := Some(qr), fsmState := Some(ScanSuccess))
      else ps[i])
  }

  /** The list after a failed scan of `id`. */
  function MarkScanError(ps: seq<Passenger>, id: int): (r: seq<Passenger>)
    ensures |r| == |ps|
    ensures forall i :: 0 <= i < |ps| && ps[i].id != id ==> r[i] == ps[i]
    ensures forall i :: 0 <= i < |ps| && ps[i].id == id ==>
              SameEntry(r[i], ps[i]) && r[i].qrError && !r[i].scanned && r[i].fsmState == Some(ScanError)
              && r[i].qrData == ps[i].qrData && !IsPending(r[i]) && IsScanCandidate(r[i])
  {
    seq(|ps|, i requires 0 <= i < |ps| =>
      if ps[i].id == id
      then ps[i].(qrError := true, scanned := false, fsmState := Some(ScanError))
      else ps[i])
  }

  /** The list after returning `id` to the queue. */
  function MarkReturned(ps: seq<Passenger>, id: int): (r: seq<Passenger>)
    ensures |r| == |ps|
    ensures forall i :: 0 <= i < |ps| && ps[i].id != id ==> r[i] == ps[i]
    ensures forall i :: 0 <= i < |ps| && ps[i].id == id ==>
              SameEntry(r[i], ps[i]) && !r[i].scanned && !r[i].qrError && r[i].qrData.None?
              && r[i].fsmState == Some(Waiting) && !IsPending(r[i]) && IsScanCandidate(r[i])
              && !LooksAccepted(r[i])
  {
    seq(|ps|, i requires 0 <= i < |ps| =>
      if ps[i].id == id
      then ps[i].(scanned := false, qrError := false, qrData := None, fsmState := Some(Waiting))
      else ps[i])
  }

  /** `visiblePassengers`: drop accepted and rejected passengers, keep the order. */
  function Visible(ps: seq<Passenger>): seq<Passenger>
  {
    Filter(ps, IsVisible)
  }

  /** `passengersWithRenumbering`: each passenger gets its one-based rank. */
  function Renumber(vs: seq<Passenger>): seq<Passenger>
  {
    seq(|vs|, i requires 0 <= i < |vs| => vs[i].(queuePosition := i + 1))
  }

  /** `pendingDecision`. */
  function PendingDecision(ps: seq<Passenger>): seq<Passenger>
  {
    Filter(ps, IsPending)
  }

  /** The displayed queue holds exactly the passengers that are neither
      accepted nor rejected, in their original order, ranked 1..N without
      gaps; apart from the rank each entry is the passenger itself. */
  lemma RenumberedQueue(ps: seq<Passenger>)
    ensures var q := Renumber(Visible(ps));
            |q| == |Visible(ps)| <= |ps|
            && (forall i :: 0 <= i < |q| ==> q[i].queuePosition == i + 1 && IsVisible(q[i]))
            && (forall i :: 0 <= i < |q| ==> q[i].(queuePosition := Visible(ps)[i].queuePosition) == Visible(ps)[i])
            && (forall p :: p in ps && IsVisible(p) <==> p in Visible(ps))
  {
    var v := Visible(ps);
    var q := Renumber(v);
    assert forall i :: 0 <= i < |q| ==> q[i] == v[i].(queuePosition := i + 1);
  }

  /** Order is kept: the visible part of a concatenation is the visible part
      of each piece, one after the other; so a passenger leaving the queue
      does not reorder the others. */
  lemma VisibleKeepsOrder(a: seq<Passenger>, b: seq<Passenger>)
    ensures Visible(a + b) == Visible(a) + Visible(b)
  {
    FilterAppend(a, b, IsVisible);
  }

  /** A passenger that takes no terminal state leaves no gap: the queue
      without an accepted or rejected passenger `x` ranks the others exactly
      as the queue that never held `x`. */
  lemma TerminalPassengerLeavesNoGap(a: seq<Passenger>, x: Passenger, b: seq<Passenger>)
    requires !IsVisible(x)
    ensures Renumber(Visible(a + [x] + b)) == Renumber(Visible(a + b))
  {
    TerminalDropped(x);
    VisibleSkips(a, x, b);
  }

  lemma TerminalDropped(x: Passenger)
    requires !IsVisible(x)
    ensures Filter([x], IsVisible) == []
  {
    assert [x][1..] == [];
    assert Filter([x][1..], IsVisible) == [];
  }

  lemma VisibleSkips(a: seq<Passenger>, x: Passenger, b: seq<Passenger>)
    requires Filter([x], IsVisible) == []
    ensures Visible(a + [x] + b) == Visible(a + b)
  {
    FilterAppend(a + [x], b, IsVisible);
    FilterAppend(a, [x], IsVisible);
    FilterAppend(a, b, IsVisible);
  }

  /** The scan button is offered exactly when no passenger awaits a decision. */
  lemma ScanButtonOffered(ps: seq<Passenger>)
    ensures |PendingDecision(ps)| == 0 <==> forall p :: p in ps ==> !IsPending(p)
  {
    if |PendingDecision(ps)| != 0 {
      assert PendingDecision(ps)[0] in PendingDecision(ps);
    }
  }

  /** After a successful scan of a passenger in the list, that passenger
      awaits a decision with the ticket sum, so the scan button is withdrawn. */
  lemma ScanSuccessAwaitsDecision(ps: seq<Passenger>, id: int, language: string, createdAt: string)
    requires FindPassenger(ps, id).Some?
    ensures var p := FindPassenger(ps, id).value;
            var r := MarkScanSuccess(ps, id, MockQR(p, language, createdAt));
            (exists q :: q in PendingDecision(r) && q.id == id
                         && q.qrData.value.sum == p.ticketCount * TicketPrice
                         && q.qrData.value.recipient == DriverName(language))
            && |PendingDecision(r)| > 0
  {
    var p := FindPassenger(ps, id).value;
    var qr := MockQR(p, language, createdAt);
    var r := MarkScanSuccess(ps, id, qr);
    var i :| 0 <= i < |ps| && ps[i] == p;
    assert r[i] in r && IsPending(r[i]) && r[i].id == id;
    assert r[i] in PendingDecision(r);
  }

  /** A return undoes a scan: the passenger is a candidate for the next scan
      and no longer awaits a decision. */
  lemma ReturnMakesCandidate(ps: seq<Passenger>, id: int)
    ensures forall q :: q in MarkReturned(ps, id) && q.id == id ==> IsScanCandidate(q) && q !in PendingDecision(MarkReturned(ps, id))
  {
  }

  /** When nothing is selected, a scan picks some passenger exactly when
      one of them is a candidate. */
  lemma ScanTargetExists(ps: seq<Passenger>)
    ensures ScanTarget(None, ps).Some? <==> exists p :: p in ps && IsScanCandidate(p)
  {
    if ScanTarget(None, ps).Some? {
      var i :| 0 <= i < |ps| && IsScanCandidate(ps[i]) && ps[i].id == ScanTarget(None, ps).value;
      assert ps[i] in ps;
    }
  }

  /** The component state of `QueueQRScanner`, with the three props it reads. */
  class QueueScanner {
    var passengers: seq<Passenger>
    var disabled: bool
    var language: string
    var showScanner: bool
    var currentScanId: Option<int>
    var scanLocked: bool
    var selectedPassengerId: Option<int>

    /** The scan lock is held exactly while a scan target is set, and exactly
        while the scanner dialog is open. Each handler that completes restores
        it, and the constructor establishes it; no handler requires it, since
        the component as written can leave it (`DismissScannerAsWritten`)
        and its handlers still run in that state. */
    ghost predicate Valid()
      reads this
    {
      (scanLocked <==> Truthy(currentScanId)) && (scanLocked <==> showScanner)
    }

    /** `disabled={disabled || scanLocked}` on the scan button. */
    function ScanButtonEnabled(): bool
      reads this
    {
      !disabled && !scanLocked
    }

    /** `pendingDecision.length === 0`: whether the scan button is rendered. */
    function ScanButtonShown(): bool
      reads this
    {
      |PendingDecision(passengers)| == 0
    }

    constructor (passengers0: seq<Passenger>, disabled0: bool, language0: string)
      ensures passengers == passengers0 && disabled == disabled0 && language == language0
      ensures !showScanner && currentScanId.None? && !scanLocked && selectedPassengerId.None?
      ensures Valid()
    {
      passengers := passengers0;
      disabled := disabled0;
      language := language0;
      showScanner := false;
      currentScanId := None;
      scanLocked := false;
      selectedPassengerId := None;
    }

    /** The parent renders the component again with new props. */
    method ReceiveProps(passengers0: seq<Passenger>, disabled0: bool, language0: string)
      modifies this`passengers, this`disabled, this`language
      ensures passengers == passengers0 && disabled == disabled0 && language == language0
    {
      passengers := passengers0;
      disabled := disabled0;
      language := language0;
    }

    /** `handlePassengerClick`: ignore a passenger that looks accepted;
        otherwise toggle the selection onto or off that passenger. */
    method PassengerClick(id: int)
      modifies this`selectedPassengerId
      ensures var found := FindPassenger(passengers, id);
              if found.Some? && LooksAccepted(found.value) then selectedPassengerId == old(selectedPassengerId)
              else if old(selectedPassengerId) == Some(id) then selectedPassengerId == None
              else selectedPassengerId == Some(id)
    {
      var found := FindPassenger(passengers, id);
      if found.Some? && LooksAccepted(found.value) {
        return;
      }
      if selectedPassengerId == Some(id) {
        selectedPassengerId := None;
      } else {
        selectedPassengerId := Some(id);
      }
    }

    /** `handleStartScan`: refused while the component is disabled or when
        there is no truthy target; otherwise it locks scanning on the target
        and opens the scanner. */
    method StartScan() returns (started: bool)
      modifies this`currentScanId, this`scanLocked, this`showScanner
      ensures started <==> !disabled && Truthy(ScanTarget(selectedPassengerId, passengers))
      ensures started ==> currentScanId == ScanTarget(selectedPassengerId, passengers)
                          && scanLocked && showScanner && Valid()
      ensures !started ==> currentScanId == old(currentScanId) && scanLocked == old(scanLocked)
                           && showScanner == old(showScanner)
    {
      if disabled {
        return false;
      }
      var target := ScanTarget(selectedPassengerId, passengers);
      if !Truthy(target) {
        return false;
      }
      currentScanId := target;
      scanLocked := true;
      showScanner := true;
      started := true;
    }

    /** `handleScanSuccess`: without a current scan, or when its passenger is
        not in the list, nothing happens; otherwise that passenger is marked
        scanned with the mock QR data (ticket sum, the driver's name in the
        `language` prop's language, the scan time `createdAt`), and selection,
        lock, scan id and dialog are all cleared. */
    method ScanSucceeded(createdAt: string)
      modifies this`passengers, this`selectedPassengerId, this`showScanner, this`currentScanId, this`scanLocked
      ensures var id := old(currentScanId);
              if !Truthy(id) || FindPassenger(old(passengers), id.value).None? then
                passengers == old(passengers) && selectedPassengerId == old(selectedPassengerId)
                && showScanner == old(showScanner) && currentScanId == old(currentScanId)
                && scanLocked == old(scanLocked)
              else
                passengers == MarkScanSuccess(old(passengers), id.value,
                                MockQR(FindPassenger(old(passengers), id.value).value, language, createdAt))
                && selectedPassengerId.None? && !showScanner && currentScanId.None? && !scanLocked && Valid()
    {
      if !Truthy(currentScanId) {
        return;
      }
      var found := FindPassenger(passengers, currentScanId.value);
      if found.None? {
        return;
      }
      passengers := MarkScanSuccess(passengers, currentScanId.value, MockQR(found.value, language, createdAt));
      selectedPassengerId := None;
      showScanner := false;
      currentScanId := None;
      scanLocked := false;
    }

    /** `handleScanError`: the target gets the error state; lock, scan id and
        dialog are cleared, but the selection is kept for a retry. */
    method ScanFailed()
      modifies this`passengers, this`showScanner, this`currentScanId, this`scanLocked
      ensures var id := old(currentScanId);
              if !Truthy(id) then
                passengers == old(passengers) && showScanner == old(showScanner)
                && currentScanId == old(currentScanId) && scanLocked == old(scanLocked)
              else
                passengers == MarkScanError(old(passengers), id.value)
                && !showScanner && currentScanId.None? && !scanLocked && Valid()
    {
      if !Truthy(currentScanId) {
        return;
      }
      passengers := MarkScanError(passengers, currentScanId.value);
      showScanner := false;
      currentScanId := None;
      scanLocked := false;
    }

    /** `handleAccept`: clear the selection and pass the id on to `onAccept`. */
    method Accept(id: int) returns (delegated: int)
      modifies this`selectedPassengerId
      ensures delegated == id && selectedPassengerId.None?
    {
      selectedPassengerId := None;
      delegated := id;
    }

    /** `handleReject`: clear the selection and pass the id on to `onReject`. */
    method Reject(id: int) returns (delegated: int)
      modifies this`selectedPassengerId
      ensures delegated == id && selectedPassengerId.None?
    {
      selectedPassengerId := None;
      delegated := id;
    }

    /** `handleReturn`: put the passenger back to waiting with its scan data
        cleared, clear the selection, and pass the id on to `onReturn`. */
    method Return(id: int) returns (delegated: int)
      modifies this`passengers, this`selectedPassengerId
      ensures passengers == MarkReturned(old(passengers), id)
      ensures selectedPassengerId.None? && delegated == id
    {
      passengers := MarkReturned(passengers, id);
      selectedPassengerId := None;
      delegated := id;
    }

    /** The scanner dialog closed without a result (`onOpenChange(false)`,
        wired to `setShowScanner`), as written: only the dialog flag drops.
        A scan in progress keeps its lock, so the scan button stays disabled
        and the invariant is broken. */
    method DismissScannerAsWritten()
      modifies this`showScanner
      ensures !showScanner
      ensures old(scanLocked) ==> scanLocked && !ScanButtonEnabled() && !Valid()
    {
      showScanner := false;
    }

    /** Closing the scanner dialog as evidently intended: the lock and the scan
        target are released with it, so the invariant holds again and the scan
        button is enabled unless the component is disabled. */
    method DismissScanner()
      modifies this`showScanner, this`currentScanId, this`scanLocked
      ensures !showScanner && currentScanId.None? && !scanLocked
      ensures Valid() && ScanButtonEnabled() == !disabled
    {
      showScanner := false;
      currentScanId := None;
      scanLocked := false;
    }
  }

  /** A concrete run of the stuck lock: one waiting passenger, a scan started,
      the dialog dismissed. As written the scan button is then disabled for
      good, since only a scan result releases the lock; with the corrected
      close it is enabled again. */
  method DismissDuringScan() returns (enabledAsWritten: bool, enabledCorrected: bool)
    ensures !enabledAsWritten && enabledCorrected
  {
    var p := Passenger(1, "A", 1, true, 1, 1, 1, false, false, None, Some(Waiting));
    var q := new QueueScanner([p], false, "en");
    var started := q.StartScan();
    assert FirstCandidateFrom([p], 0) == Some(0);
    assert started;
    q.DismissScannerAsWritten();
    enabledAsWritten := q.ScanButtonEnabled();

    var q' := new QueueScanner([p], false, "en");
    started := q'.StartScan();
    q'.DismissScanner();
    enabledCorrected := q'.ScanButtonEnabled();
  }
}
