/** The balance screen as a stateful object: every piece of screen state is a
    field, and every handler of the screen is a method that updates the
    fields it names. The ledger arithmetic lives in module `Balance`. */
module BalancePage {
  import opened Common
  import opened Utils
  import opened Balance

  /** What the scanner dialog reports when a settlement QR code is read. The
      screen itself always reports a match; the other two outcomes are the
      simulated branches that are switched off there. */
  datatype ScanOutcome = ScanMatched | ScanNotFound | ScanMismatch

  /** The part of the screen state kept across visits. A missing key is
      `None`. */
  datatype SavedState = SavedState(
    deposit: Option<real>,
    commission: Option<real>,
    isDepositAdded: Option<bool>,
    activeTab: Option<Tab>,
    recalcResults: Option<seq<SettlementPerson>>)

  const DefaultDeposit: real := 2500.0
  const DefaultCommission: real := 325.0

  /** The name the operations-tab scan always reports. */
  function OperationsPayer(language: string): string
  {
    if language == "ru" then "Клиент Иванов И.И." else "Client Ivanov I."
  }

  class BalanceScreen {
    var language: string
    var activeTab: Tab
    var paymentFilters: seq<PaymentFilter>
    var transactions: seq<Transaction>
    var isPanelsDisabled: bool
    var recalcResults: seq<SettlementPerson>
    var lastRecalcTime: Option<DateParts>
    var showCashQRDialog: bool
    var showGeneratedQR: bool
    var currentSettlementPerson: Option<SettlementPerson>
    var settlementAction: Option<SettlementAction>
    var generatedQRData: Option<QRScanData>
    var scannedQRData: Option<QRScanData>
    var showQRResult: Option<Tab>
    var qrError: Option<QRError>
    var deposit: real
    var commission: real
    var isDepositAdded: bool

    /** The filter list is well formed, and a settlement waiting for a QR
        code never goes through a chosen dispatcher (those are routed at
        once). */
    ghost predicate Valid()
      reads this
    {
      && FiltersWellFormed(paymentFilters)
      && (currentSettlementPerson.Some? ==> !ThroughChosenDispatcher(currentSettlementPerson.value))
    }

    /** Whether the scanned code may be accepted for the current settlement. */
    function QRValid(): bool
      reads this
    {
      IsQRValidForSettlement(activeTab, currentSettlementPerson, scannedQRData, qrError)
    }

    /** The operations list as shown under the payment filter. */
    function Shown(): seq<Transaction>
      reads this
    {
      FilteredTransactions(transactions, paymentFilters)
    }

    /** The "add deposit and commission" button is shown. */
    function DepositButtonShown(): bool
      reads this
    {
      deposit > 0.0 && !isDepositAdded
    }

    /** The state that is written back for the next visit. */
    function Snapshot(): SavedState
      reads this
    {
      SavedState(Some(deposit), Some(commission), Some(isDepositAdded), Some(activeTab), Some(recalcResults))
    }

    /** The screen as first rendered; the tab remembered from the last visit
        is restored. The sample operations are stamped now, an hour ago and
        two hours ago. */
    constructor(savedTab: Option<Tab>, now: DateParts, hourAgo: DateParts, twoHoursAgo: DateParts)
      ensures Valid()
      ensures activeTab == if savedTab.Some? then savedTab.value else Operations
      ensures language == "ru" && paymentFilters == [Qr, Cash]
      ensures recalcResults == [
                SettlementPerson(1, "Водитель Иванов", 1500.0, Driver, false, "", None, None),
                SettlementPerson(2, "Водитель Смирнов", -500.0, Driver, false, "", None, None)]
      ensures UniqueIds(recalcResults) && ToAccept(recalcResults) == 1500.0 && ToDebit(recalcResults) == 500.0
      ensures transactions == [
                Transaction(1, Booking, 450.0, "Иван П.", now, Qr, None, false),
                Transaction(2, BoardingPayment, 900.0, "Ольга В.", hourAgo, Qr, None, false),
                Transaction(3, Client, 900.0, "Мария С.", twoHoursAgo, Cash, None, false)]
      ensures deposit == 0.0 && commission == 0.0 && !isDepositAdded
      ensures currentSettlementPerson.None? && settlementAction.None? && showQRResult.None?
      ensures lastRecalcTime.None? && generatedQRData.None? && scannedQRData.None? && qrError.None?
      ensures !showCashQRDialog && !showGeneratedQR && !isPanelsDisabled
    {
      language := "ru";
      activeTab := if savedTab.Some? then savedTab.value else Operations;
      paymentFilters := [Qr, Cash];
      transactions := [
        Transaction(1, Booking, 450.0, "Иван П.", now, Qr, None, false),
        Transaction(2, BoardingPayment, 900.0, "Ольга В.", hourAgo, Qr, None, false),
        Transaction(3, Client, 900.0, "Мария С.", twoHoursAgo, Cash, None, false)];
      isPanelsDisabled := false;
      recalcResults := [
        SettlementPerson(1, "Водитель Иванов", 1500.0, Driver, false, "", None, None),
        SettlementPerson(2, "Водитель Смирнов", -500.0, Driver, false, "", None, None)];
      lastRecalcTime := None;
      showCashQRDialog := false;
      showGeneratedQR := false;
      currentSettlementPerson := None;
      settlementAction := None;
      generatedQRData := None;
      scannedQRData := None;
      showQRResult := None;
      qrError := None;
      deposit := 0.0;
      commission := 0.0;
      isDepositAdded := false;
    }

    /** Loading the kept state once after the first render. Deposit and
        commission fall back to their defaults when the value or the whole
        saved state is missing; the other keys keep the current value. */
    method Load(saved: Option<SavedState>)
      modifies this`deposit, this`commission, this`isDepositAdded, this`activeTab, this`recalcResults
      ensures deposit == if saved.Some? && saved.value.deposit.Some? then saved.value.deposit.value else DefaultDeposit
      ensures commission == if saved.Some? && saved.value.commission.Some? then saved.value.commission.value else DefaultCommission
      ensures isDepositAdded ==
                if saved.Some? && saved.value.isDepositAdded.Some? then saved.value.isDepositAdded.value
                else old(isDepositAdded)
      ensures activeTab == if saved.Some? && saved.value.activeTab.Some? then saved.value.activeTab.value else old(activeTab)
      ensures recalcResults ==
                if saved.Some? && saved.value.recalcResults.Some? then saved.value.recalcResults.value
                else old(recalcResults)
      ensures saved == Some(old(Snapshot())) ==>
                deposit == old(deposit) && commission == old(commission) && isDepositAdded == old(isDepositAdded)
                && activeTab == old(activeTab) && recalcResults == old(recalcResults)
    {
      deposit := DefaultDeposit;
      commission := DefaultCommission;
      if saved.Some? {
        var s := saved.value;
        if s.deposit.Some? { deposit := s.deposit.value; }
        if s.commission.Some? { commission := s.commission.value; }
        if s.isDepositAdded.Some? { isDepositAdded := s.isDepositAdded.value; }
        if s.activeTab.Some? { activeTab := s.activeTab.value; }
        if s.recalcResults.Some? { recalcResults := s.recalcResults.value; }
      }
    }

    method SetActiveTab(tab: Tab)
      modifies this`activeTab
      ensures activeTab == tab
    {
      activeTab := tab;
    }

    /** Pressing a payment filter. */
    method TogglePaymentFilter(choice: FilterChoice)
      requires Valid()
      modifies this`paymentFilters
      ensures paymentFilters == ToggleFilters(old(paymentFilters), choice)
      ensures Valid()
      ensures choice.All? ==> Shown() == transactions
    {
      ToggleFiltersSets(paymentFilters, choice);
      paymentFilters := ToggleFilters(paymentFilters, choice);
      if choice.All? {
        FilteredTransactionsSelects(transactions, paymentFilters);
      }
    }

    method ToggleTransactionExpanded(id: int)
      modifies this`transactions
      ensures transactions == ToggleExpanded(old(transactions), id)
    {
      transactions := ToggleExpanded(transactions, id);
    }

    /** "Recalculate": stamps the time and locks the panels until the timer
        fires. */
    method Recalculate(now: DateParts)
      modifies this`lastRecalcTime, this`isPanelsDisabled
      ensures lastRecalcTime == Some(now) && isPanelsDisabled
    {
      lastRecalcTime := Some(now);
      isPanelsDisabled := true;
    }

    method RecalcTimerElapsed()
      modifies this`isPanelsDisabled
      ensures !isPanelsDisabled
    {
      isPanelsDisabled := false;
    }

    /** Pressing "debit" or "accept" on a settlement record. Through a chosen
        dispatcher the record is routed at once (a routed debit of the
        deposit record also clears deposit and commission); otherwise a debit
        shows a QR code for the driver and a credit opens the scanner. */
    method Settle(person: SettlementPerson, action: SettlementAction, now: DateParts, freshId: int)
      requires Valid()
      modifies this`recalcResults, this`deposit, this`commission, this`currentSettlementPerson,
               this`settlementAction, this`generatedQRData, this`showGeneratedQR, this`showCashQRDialog
      ensures Valid()
      ensures old(UniqueIds(recalcResults)) && !old(HasId(recalcResults, freshId)) ==> UniqueIds(recalcResults)
      ensures ThroughChosenDispatcher(person) ==>
                var dname := DispatcherName(person.selectedDispatcher, language);
                && recalcResults == (if action == Debit then RouteDebit(old(recalcResults), person, now, freshId, dname)
                                     else RouteCredit(old(recalcResults), person, now, freshId, dname))
                && currentSettlementPerson.None? && settlementAction.None?
                && (action == Debit && person.id == DepositId ==> deposit == 0.0 && commission == 0.0)
                && (action == Credit || person.id != DepositId ==> deposit == old(deposit) && commission == old(commission))
                && generatedQRData == old(generatedQRData) && showGeneratedQR == old(showGeneratedQR)
                && showCashQRDialog == old(showCashQRDialog)
      ensures !ThroughChosenDispatcher(person) ==>
                && recalcResults == old(recalcResults) && deposit == old(deposit) && commission == old(commission)
                && currentSettlementPerson == Some(person) && settlementAction == Some(action)
      ensures !ThroughChosenDispatcher(person) && action == Debit ==>
                && generatedQRData == Some(QRScanData(Abs(person.amount), person.name, FormatDateTime(now)))
                && showGeneratedQR && showCashQRDialog == old(showCashQRDialog)
                && IsQRValidForSettlement(Settlements, currentSettlementPerson, generatedQRData, None)
      ensures !ThroughChosenDispatcher(person) && action == Credit ==>
                && showCashQRDialog
                && generatedQRData == old(generatedQRData) && showGeneratedQR == old(showGeneratedQR)
    {
      if ThroughChosenDispatcher(person) {
        RouteThroughDispatcher(person, action, now, freshId);
        currentSettlementPerson := None;
        settlementAction := None;
      } else {
        StartQRSettlement(person, action, now);
      }
    }

    /** The unrouted half of a settlement: the person and action are kept
        while a QR code is shown for a debit, or the scanner is opened for a
        credit. */
    method StartQRSettlement(person: SettlementPerson, action: SettlementAction, now: DateParts)
      modifies this`currentSettlementPerson, this`settlementAction, this`generatedQRData,
               this`showGeneratedQR, this`showCashQRDialog
      ensures currentSettlementPerson == Some(person) && settlementAction == Some(action)
      ensures action == Debit ==>
                && generatedQRData == Some(QRScanData(Abs(person.amount), person.name, FormatDateTime(now)))
                && showGeneratedQR && showCashQRDialog == old(showCashQRDialog)
                && IsQRValidForSettlement(Settlements, currentSettlementPerson, generatedQRData, None)
      ensures action == Credit ==>
                && showCashQRDialog
                && generatedQRData == old(generatedQRData) && showGeneratedQR == old(showGeneratedQR)
    {
      currentSettlementPerson := Some(person);
      settlementAction := Some(action);
      if action == Debit {
        var created := FormatDateTime(now);
        GeneratedQRPasses(person, created);
        generatedQRData := Some(QRScanData(Abs(person.amount), person.name, created));
        showGeneratedQR := true;
      } else {
        showCashQRDialog := true;
      }
    }

    /** The routed half of a settlement: the person's record is completed and
        the amount moved to the chosen dispatcher's record; settling the
        deposit record by debit also clears the deposit and commission. */
    method RouteThroughDispatcher(person: SettlementPerson, action: SettlementAction, now: DateParts, freshId: int)
      modifies this`recalcResults, this`deposit, this`commission
      ensures old(UniqueIds(recalcResults)) && !old(HasId(recalcResults, freshId)) ==> UniqueIds(recalcResults)
      ensures var dname := DispatcherName(person.selectedDispatcher, language);
              recalcResults == (if action == Debit then RouteDebit(old(recalcResults), person, now, freshId, dname)
                                else RouteCredit(old(recalcResults), person, now, freshId, dname))
      ensures action == Debit && person.id == DepositId ==> deposit == 0.0 && commission == 0.0
      ensures action == Credit || person.id != DepositId ==> deposit == old(deposit) && commission == old(commission)
    {
      var dname := DispatcherName(person.selectedDispatcher, language);
      if UniqueIds(recalcResults) && !HasId(recalcResults, freshId) {
        RoutingKeepsUniqueIds(recalcResults, person, now, freshId, dname);
      }
      if action == Debit {
        recalcResults := RouteDebit(recalcResults, person, now, freshId, dname);
        if person.id == DepositId {
          deposit := 0.0;
          commission := 0.0;
        }
      } else {
        recalcResults := RouteCredit(recalcResults, person, now, freshId, dname);
      }
    }

    /** The scanner dialog reports a scan. On the operations tab the result is
        a fixed sample payment; on the settlements tab, with a settlement in
        progress, the reported outcome decides what is shown. The matched
        outcome always passes the QR check and the other two never do. */
    method ConfirmScan(outcome: ScanOutcome, now: DateParts)
      modifies this`scannedQRData, this`qrError, this`showQRResult, this`showCashQRDialog
      ensures activeTab == Operations ==>
                && scannedQRData == Some(QRScanData(450.0, OperationsPayer(language), FormatDateTime(now)))
                && qrError.None? && showQRResult == Some(Operations) && !showCashQRDialog
      ensures activeTab == Settlements && currentSettlementPerson.None? ==>
                && scannedQRData == old(scannedQRData) && qrError == old(qrError)
                && showQRResult == old(showQRResult) && showCashQRDialog == old(showCashQRDialog)
      ensures activeTab == Settlements && currentSettlementPerson.Some? ==>
                var p := currentSettlementPerson.value;
                && showQRResult == Some(Settlements) && !showCashQRDialog
                && (outcome == ScanMatched ==>
                      scannedQRData == Some(QRScanData(Abs(p.amount), p.name, FormatDateTime(now))) && qrError.None?)
                && (outcome == ScanNotFound ==> scannedQRData.None? && qrError == Some(NotFound))
                && (outcome == ScanMismatch ==>
                      && scannedQRData == Some(QRScanData(Abs(p.amount) + 100.0, "Неизвестный Водитель", FormatDateTime(now)))
                      && qrError == Some(Mismatch))
                && (QRValid() <==> outcome == ScanMatched)
    {
      if activeTab == Operations {
        scannedQRData := Some(QRScanData(450.0, OperationsPayer(language), FormatDateTime(now)));
        qrError := None;
        showQRResult := Some(activeTab);
        showCashQRDialog := false;
      } else if currentSettlementPerson.Some? {
        var p := currentSettlementPerson.value;
        match outcome {
          case ScanNotFound =>
            ScanErrorFails(Settlements, Some(p), None, NotFound);
            scannedQRData := None;
            qrError := Some(NotFound);
          case ScanMismatch =>
            var wrong := QRScanData(Abs(p.amount) + 100.0, "Неизвестный Водитель", FormatDateTime(now));
            ScanErrorFails(Settlements, Some(p), Some(wrong), Mismatch);
            scannedQRData := Some(wrong);
            qrError := Some(Mismatch);
          case ScanMatched =>
            var created := FormatDateTime(now);
            GeneratedQRPasses(p, created);
            scannedQRData := Some(QRScanData(Abs(p.amount), p.name, created));
            qrError := None;
        }
        showQRResult := Some(Settlements);
        showCashQRDialog := false;
      }
    }

    /** Clearing the QR result and the settlement in progress. */
    method ResetAfterQR()
      modifies this`showQRResult, this`scannedQRData, this`qrError, this`currentSettlementPerson,
               this`settlementAction, this`isPanelsDisabled
      ensures showQRResult.None? && scannedQRData.None? && qrError.None?
      ensures currentSettlementPerson.None? && settlementAction.None? && !isPanelsDisabled
    {
      showQRResult := None;
      scannedQRData := None;
      qrError := None;
      currentSettlementPerson := None;
      settlementAction := None;
      isPanelsDisabled := false;
    }

    /** Accepting the scanned code. On the operations tab the result is
        dismissed. On the settlements tab nothing happens while there is no
        scanned data or there is a scan error; otherwise a code that passes
        the check completes the current settlement, and in every case the
        settlement in progress is cleared. */
    method AcceptQR(now: DateParts)
      requires Valid()
      modifies this`recalcResults, this`showQRResult, this`scannedQRData, this`qrError,
               this`currentSettlementPerson, this`settlementAction, this`isPanelsDisabled
      ensures Valid()
      ensures activeTab == Operations ==>
                && showQRResult.None? && scannedQRData.None? && qrError.None?
                && recalcResults == old(recalcResults) && currentSettlementPerson == old(currentSettlementPerson)
                && settlementAction == old(settlementAction) && isPanelsDisabled == old(isPanelsDisabled)
      ensures activeTab == Settlements && (old(scannedQRData).None? || old(qrError).Some?) ==>
                && recalcResults == old(recalcResults) && showQRResult == old(showQRResult)
                && scannedQRData == old(scannedQRData) && qrError == old(qrError)
                && currentSettlementPerson == old(currentSettlementPerson)
                && settlementAction == old(settlementAction) && isPanelsDisabled == old(isPanelsDisabled)
      ensures activeTab == Settlements && old(scannedQRData).Some? && old(qrError).None? ==>
                && recalcResults == (if old(QRValid())
                                     then CompleteById(old(recalcResults), old(currentSettlementPerson).value.id, now, None)
                                     else old(recalcResults))
                && showQRResult.None? && scannedQRData.None? && qrError.None?
                && currentSettlementPerson.None? && settlementAction.None? && !isPanelsDisabled
    {
      if activeTab == Operations {
        showQRResult := None;
        scannedQRData := None;
        qrError := None;
        return;
      }
      if scannedQRData.None? || qrError.Some? {
        return;
      }
      if activeTab == Settlements && currentSettlementPerson.Some? && QRValid() {
        var p := currentSettlementPerson.value;
        if ThroughChosenDispatcher(p) {
          // The source would route `p` through its dispatcher here, as a debit;
          // such settlements never wait for a QR code (see Valid()).
          assert false;
        } else {
          recalcResults := CompleteById(recalcResults, p.id, now, None);
        }
      }
      ResetAfterQR();
    }

    /** Rejecting the scanned code clears it and the settlement in progress. */
    method RejectQR()
      modifies this`showQRResult, this`scannedQRData, this`qrError, this`currentSettlementPerson,
               this`settlementAction, this`isPanelsDisabled
      ensures showQRResult.None? && scannedQRData.None? && qrError.None?
      ensures currentSettlementPerson.None? && settlementAction.None? && !isPanelsDisabled
    {
      ResetAfterQR();
    }

    /** Stepping back from the scan result; the state is cleared as on
        rejection. */
    method ReturnQR()
      modifies this`showQRResult, this`scannedQRData, this`qrError, this`currentSettlementPerson,
               this`settlementAction, this`isPanelsDisabled
      ensures showQRResult.None? && scannedQRData.None? && qrError.None?
      ensures currentSettlementPerson.None? && settlementAction.None? && !isPanelsDisabled
    {
      ResetAfterQR();
    }

    /** Closing the generated debit QR without a result. */
    method CloseGeneratedQR()
      modifies this`showGeneratedQR, this`generatedQRData, this`currentSettlementPerson,
               this`settlementAction, this`isPanelsDisabled
      ensures !showGeneratedQR && generatedQRData.None?
      ensures currentSettlementPerson.None? && settlementAction.None? && !isPanelsDisabled
    {
      showGeneratedQR := false;
      generatedQRData := None;
      currentSettlementPerson := None;
      settlementAction := None;
      isPanelsDisabled := false;
    }

    /** The driver reports that the generated debit QR was read: the current
        settlement is completed, and for the deposit record deposit and
        commission are cleared. */
    method GeneratedQRSucceeded(now: DateParts)
      modifies this`recalcResults, this`deposit, this`commission, this`showGeneratedQR, this`generatedQRData,
               this`currentSettlementPerson, this`settlementAction, this`isPanelsDisabled
      ensures recalcResults ==
                if old(currentSettlementPerson).Some?
                then CompleteById(old(recalcResults), old(currentSettlementPerson).value.id, now, None)
                else old(recalcResults)
      ensures old(currentSettlementPerson).Some? && old(currentSettlementPerson).value.id == DepositId ==>
                deposit == 0.0 && commission == 0.0
      ensures old(currentSettlementPerson).None? || old(currentSettlementPerson).value.id != DepositId ==>
                deposit == old(deposit) && commission == old(commission)
      ensures UniqueIds(old(recalcResults)) ==> UniqueIds(recalcResults)
      ensures !showGeneratedQR && generatedQRData.None?
      ensures currentSettlementPerson.None? && settlementAction.None? && !isPanelsDisabled
    {
      if currentSettlementPerson.Some? {
        var p := currentSettlementPerson.value;
        recalcResults := CompleteById(recalcResults, p.id, now, None);
        if p.id == DepositId {
          deposit := 0.0;
          commission := 0.0;
        }
      }
      CloseGeneratedQR();
    }

    /** The driver reports that the generated debit QR failed. */
    method GeneratedQRFailed()
      modifies this`showGeneratedQR, this`generatedQRData, this`currentSettlementPerson,
               this`settlementAction, this`isPanelsDisabled
      ensures !showGeneratedQR && generatedQRData.None?
      ensures currentSettlementPerson.None? && settlementAction.None? && !isPanelsDisabled
    {
      CloseGeneratedQR();
    }

    /** The generated-QR dialog opened or dismissed by the dialog itself. */
    method SetGeneratedQROpen(open: bool)
      modifies this`showGeneratedQR
      ensures showGeneratedQR == open
    {
      showGeneratedQR := open;
    }

    /** The scanner dialog opened (the operations-tab scan button) or
        dismissed by the dialog itself. */
    method SetCashDialogOpen(open: bool)
      modifies this`showCashQRDialog
      ensures showCashQRDialog == open
    {
      showCashQRDialog := open;
    }

    method ToggleDispatcher(id: int)
      modifies this`recalcResults
      ensures recalcResults == Balance.ToggleDispatcher(old(recalcResults), id)
      ensures UniqueIds(old(recalcResults)) ==> UniqueIds(recalcResults)
    {
      ControlsKeepIds(recalcResults, id, "");
      recalcResults := Balance.ToggleDispatcher(recalcResults, id);
    }

    method SelectDispatcher(id: int, dispatcher: string)
      modifies this`recalcResults
      ensures recalcResults == Balance.SelectDispatcher(old(recalcResults), id, dispatcher)
      ensures UniqueIds(old(recalcResults)) ==> UniqueIds(recalcResults)
    {
      ControlsKeepIds(recalcResults, id, dispatcher);
      recalcResults := Balance.SelectDispatcher(recalcResults, id, dispatcher);
    }

    /** Pressing "add deposit and commission": the deposit record is appended
        unless it is already in the list; pressing again changes nothing. */
    method AddDeposit()
      modifies this`recalcResults, this`isDepositAdded
      ensures recalcResults == WithDeposit(old(recalcResults), deposit, commission, language)
      ensures isDepositAdded == (old(isDepositAdded) || !old(HasId(recalcResults, DepositId)))
      ensures old(HasId(recalcResults, DepositId)) ==> recalcResults == old(recalcResults)
      ensures !old(HasId(recalcResults, DepositId)) ==> !DepositButtonShown()
      ensures UniqueIds(old(recalcResults)) ==> UniqueIds(recalcResults)
    {
      if !HasId(recalcResults, DepositId) {
        recalcResults := recalcResults + [DepositRecord(deposit, commission, language)];
        isDepositAdded := true;
      }
    }

    /** Re-offering the deposit button when there is a deposit or commission
        but no deposit record. */
    method SyncDepositFlag()
      modifies this`isDepositAdded
      ensures isDepositAdded ==
                (old(isDepositAdded) && !((deposit > 0.0 || commission > 0.0) && !HasId(recalcResults, DepositId)))
    {
      if (deposit > 0.0 || commission > 0.0) && !HasId(recalcResults, DepositId) {
        isDepositAdded := false;
      }
    }
  }
}
