/** The settlement ledger of the balance screen: the list of settlement records
    (drivers, dispatchers and the deposit-and-commission entry), the totals shown
    above it, routing a settlement through a dispatcher, the check that a
    scanned QR code matches the settlement it pays, and the payment-method
    filter of the operations list. */
module Balance {
  import opened Common
  import opened Utils

  datatype PersonType = Driver | Dispatcher

  /** One settlement record. `selectedDispatcher` is "" when none is chosen
      (the source's `undefined` and `""` are both falsy); `completedAt` is
      present once the settlement is done. */
  datatype SettlementPerson = SettlementPerson(
    id: int,
    name: string,
    amount: real,
    kind: PersonType,
    throughDispatcher: bool,
    selectedDispatcher: string,
    completedAt: Option<DateParts>,
    dispatcherName: Option<string>)

  /** What a QR code carries: a sum, a recipient and its creation time. */
  datatype QRScanData = QRScanData(sum: real, recipient: string, createdAt: string)

  datatype QRError = NotFound | Mismatch

  datatype SettlementAction = Debit | Credit

  datatype Tab = Operations | Settlements

  datatype PaymentFilter = Qr | Cash

  /** The argument of the payment-filter toggle: "all" or one method. */
  datatype FilterChoice = All | Only(pick: PaymentFilter)

  datatype TransactionType = Booking | BoardingPayment | Client | Income

  datatype Transaction = Transaction(
    id: int,
    kind: TransactionType,
    amount: real,
    passengerName: string,
    timestamp: DateParts,
    paymentMethod: PaymentFilter,
    description: Option<string>,
    expanded: bool)

  /** The reserved id of the deposit-and-commission record. */
  const DepositId: int := 999

  function Abs(x: real): (r: real)
    ensures r >= 0.0 && (r == x || r == -x)
  {
    if x < 0.0 then -x else x
  }

  predicate IsOpen(p: SettlementPerson) { p.completedAt.None? }

  /** No two records share an id. */
  predicate UniqueIds(rs: seq<SettlementPerson>)
  {
    forall i, j :: 0 <= i < j < |rs| ==> rs[i].id != rs[j].id
  }

  predicate HasId(rs: seq<SettlementPerson>, id: int)
  {
    exists i :: 0 <= i < |rs| && rs[i].id == id
  }

  // ---------------------------------------------------------------------
  // Totals

  /** Sum of the open positive amounts ("to accept"). */
  function ToAccept(rs: seq<SettlementPerson>): (r: real)
    ensures r >= 0.0
    ensures (forall i :: 0 <= i < |rs| ==> !IsOpen(rs[i]) || rs[i].amount <= 0.0) ==> r == 0.0
    decreases |rs|
  {
    if rs == [] then 0.0
    else (if IsOpen(rs[0]) && rs[0].amount > 0.0 then rs[0].amount else 0.0) + ToAccept(rs[1..])
  }

  /** Sum of the magnitudes of the open negative amounts ("to debit"). */
  function ToDebit(rs: seq<SettlementPerson>): (r: real)
    ensures r >= 0.0
    ensures (forall i :: 0 <= i < |rs| ==> !IsOpen(rs[i]) || rs[i].amount >= 0.0) ==> r == 0.0
    decreases |rs|
  {
    if rs == [] then 0.0
    else (if IsOpen(rs[0]) && rs[0].amount < 0.0 then Abs(rs[0].amount) else 0.0) + ToDebit(rs[1..])
  }

  function Saldo(rs: seq<SettlementPerson>): real
  {
    ToAccept(rs) - ToDebit(rs)
  }

  /** What a record contributes to the balance of open settlements. */
  function Contribution(p: SettlementPerson): real
  {
    if IsOpen(p) then p.amount else 0.0
  }

  /** Reference definition of the saldo: the plain sum of the open amounts. */
  function OpenSum(rs: seq<SettlementPerson>): real
    decreases |rs|
  {
    if rs == [] then 0.0 else Contribution(rs[0]) + OpenSum(rs[1..])
  }

  /** The saldo shown on screen is the signed sum of all open amounts. */
  lemma {:induction false} SaldoIsOpenSum(rs: seq<SettlementPerson>)
    ensures Saldo(rs) == OpenSum(rs)
    decreases |rs|
  {
    if rs != [] {
      SaldoIsOpenSum(rs[1..]);
    }
  }

  lemma {:induction false} OpenSumAppend(rs: seq<SettlementPerson>, x: SettlementPerson)
    ensures OpenSum(rs + [x]) == OpenSum(rs) + Contribution(x)
    decreases |rs|
  {
    if rs == [] {
      assert rs + [x] == [x];
    } else {
      assert (rs + [x])[1..] == rs[1..] + [x];
      OpenSumAppend(rs[1..], x);
    }
  }

  lemma {:induction false} OpenSumUpdate(rs: seq<SettlementPerson>, k: int, x: SettlementPerson)
    requires 0 <= k < |rs|
    ensures OpenSum(rs[k := x]) == OpenSum(rs) - Contribution(rs[k]) + Contribution(x)
    decreases |rs|
  {
    if k == 0 {
      assert rs[k := x][1..] == rs[1..];
    } else {
      assert rs[k := x][1..] == rs[1..][k - 1 := x];
      OpenSumUpdate(rs[1..], k - 1, x);
    }
  }

  // ---------------------------------------------------------------------
  // Routing a settlement through a dispatcher

  /** The display name of the chosen dispatcher: "dispatcher1" is Petrov,
      any other choice is Sidorov. */
  function DispatcherName(selected: string, language: string): string
  {
    if selected == "dispatcher1" then
      (if language == "ru" then "Диспетчер Петров" else "Dispatcher Petrov")
    else
      (if language == "ru" then "Диспетчер Сидоров" else "Dispatcher Sidorov")
  }

  /** In either language, two dispatcher choices get the same name exactly
      when both or neither are "dispatcher1", so the balances routed to
      Petrov and to Sidorov are never merged; and the Russian and English
      names of one choice differ. */
  lemma DispatcherNamesDistinct(c1: string, c2: string, language: string)
    ensures DispatcherName(c1, language) == DispatcherName(c2, language)
            <==> ((c1 == "dispatcher1") == (c2 == "dispatcher1"))
    ensures DispatcherName(c1, "ru") != DispatcherName(c1, "en")
  {
    if (c1 == "dispatcher1") != (c2 == "dispatcher1") {
      assert |DispatcherName(c1, language)| != |DispatcherName(c2, language)|;
    }
    assert DispatcherName(c1, "ru")[0] != DispatcherName(c1, "en")[0];
  }

  /** A settlement goes through a dispatcher when the flag is set and a
      dispatcher has been chosen. */
  predicate ThroughChosenDispatcher(p: SettlementPerson)
  {
    p.throughDispatcher && p.selectedDispatcher != ""
  }

  predicate IsDispatcherRecord(p: SettlementPerson, name: string)
  {
    p.name == name && p.kind == Dispatcher
  }

  /** Index of the first dispatcher record called `name` at or after `k`,
      completed or not. */
  function FindDispatcherFrom(rs: seq<SettlementPerson>, name: string, k: nat): (r: Option<nat>)
    requires k <= |rs|
    ensures r.Some? ==> k <= r.value < |rs| && IsDispatcherRecord(rs[r.value], name)
    ensures r.Some? ==> forall i :: k <= i < r.value ==> !IsDispatcherRecord(rs[i], name)
    ensures r.None? ==> forall i :: k <= i < |rs| ==> !IsDispatcherRecord(rs[i], name)
    decreases |rs| - k
  {
    if k == |rs| then None
    else if IsDispatcherRecord(rs[k], name) then Some(k)
    else FindDispatcherFrom(rs, name, k + 1)
  }

  function FindDispatcher(rs: seq<SettlementPerson>, name: string): Option<nat>
  {
    FindDispatcherFrom(rs, name, 0)
  }

  /** A record marked done: stamped, taken off the dispatcher route, and
      (when routed) annotated with the dispatcher that took it over. */
  function Completed(p: SettlementPerson, now: DateParts, via: Option<string>): SettlementPerson
  {
    var q := p.(completedAt := Some(now), throughDispatcher := false, selectedDispatcher := "");
    if via.Some? then q.(dispatcherName := via) else q
  }

  /** Every record with the given id completed, the others kept. */
  function CompleteById(rs: seq<SettlementPerson>, id: int, now: DateParts, via: Option<string>): (r: seq<SettlementPerson>)
    ensures |r| == |rs|
    ensures forall i :: 0 <= i < |rs| ==> r[i].id == rs[i].id
    ensures forall i :: 0 <= i < |rs| && rs[i].id != id ==> r[i] == rs[i]
    ensures forall i :: 0 <= i < |rs| && rs[i].id == id ==> r[i] == Completed(rs[i], now, via)
  {
    seq(|rs|, i requires 0 <= i < |rs| => if rs[i].id == id then Completed(rs[i], now, via) else rs[i])
  }

  /** Every record with the given id has `delta` added to its amount. */
  function AdjustById(rs: seq<SettlementPerson>, id: int, delta: real): (r: seq<SettlementPerson>)
    ensures |r| == |rs|
    ensures forall i :: 0 <= i < |rs| ==> r[i].id == rs[i].id
    ensures forall i :: 0 <= i < |rs| && rs[i].id != id ==> r[i] == rs[i]
    ensures forall i :: 0 <= i < |rs| && rs[i].id == id ==> r[i] == rs[i].(amount := rs[i].amount + delta)
  {
    seq(|rs|, i requires 0 <= i < |rs| => if rs[i].id == id then rs[i].(amount := rs[i].amount + delta) else rs[i])
  }

  /** A dispatcher record created by routing. */
  function NewDispatcher(id: int, name: string, amount: real): SettlementPerson
  {
    SettlementPerson(id, name, amount, Dispatcher, false, "", None, None)
  }

  /** A debit moved onto a dispatcher: the person's record is completed and
      the dispatcher's balance goes down by the transferred magnitude, on the
      dispatcher's existing record or on a new one. */
  function RouteDebit(rs: seq<SettlementPerson>, person: SettlementPerson, now: DateParts,
                      freshId: int, dname: string): seq<SettlementPerson>
  {
    var done := CompleteById(rs, person.id, now, Some(dname));
    match FindDispatcher(rs, dname)
    case Some(k) => AdjustById(done, rs[k].id, -Abs(person.amount))
    case None => done + [NewDispatcher(freshId, dname, -Abs(person.amount))]
  }

  /** A credit moved onto a dispatcher: the dispatcher's balance goes up by
      the person's amount. With an existing dispatcher record one pass updates
      both records, and the dispatcher's own id takes precedence. */
  function RouteCredit(rs: seq<SettlementPerson>, person: SettlementPerson, now: DateParts,
                       freshId: int, dname: string): seq<SettlementPerson>
  {
    match FindDispatcher(rs, dname)
    case Some(k) =>
      seq(|rs|, i requires 0 <= i < |rs| =>
        if rs[i].id == rs[k].id then rs[i].(amount := rs[i].amount + person.amount)
        else if rs[i].id == person.id then Completed(rs[i], now, Some(dname))
        else rs[i])
    case None => CompleteById(rs, person.id, now, Some(dname)) + [NewDispatcher(freshId, dname, person.amount)]
  }

  /** With unique ids, completing by id touches exactly one position. */
  lemma CompleteByIdAt(rs: seq<SettlementPerson>, s: int, now: DateParts, via: Option<string>)
    requires UniqueIds(rs) && 0 <= s < |rs|
    ensures CompleteById(rs, rs[s].id, now, via) == rs[s := Completed(rs[s], now, via)]
  {
    var r := CompleteById(rs, rs[s].id, now, via);
    forall i | 0 <= i < |rs|
      ensures r[i] == rs[s := Completed(rs[s], now, via)][i]
    {
      if i != s {
        assert i < s || s < i;
        assert rs[i].id != rs[s].id;
      }
    }
  }

  lemma AdjustByIdAt(rs: seq<SettlementPerson>, k: int, delta: real)
    requires UniqueIds(rs) && 0 <= k < |rs|
    ensures AdjustById(rs, rs[k].id, delta) == rs[k := rs[k].(amount := rs[k].amount + delta)]
  {
    var r := AdjustById(rs, rs[k].id, delta);
    forall i | 0 <= i < |rs|
      ensures r[i] == rs[k := rs[k].(amount := rs[k].amount + delta)][i]
    {
      if i != k {
        assert i < k || k < i;
        assert rs[i].id != rs[k].id;
      }
    }
  }

  lemma UniqueIdsAt(rs: seq<SettlementPerson>, s: int, x: SettlementPerson)
    requires UniqueIds(rs) && 0 <= s < |rs| && x.id == rs[s].id
    ensures UniqueIds(rs[s := x])
  {
    var r := rs[s := x];
    forall i, j | 0 <= i < j < |r|
      ensures r[i].id != r[j].id
    {
      assert r[i].id == rs[i].id && r[j].id == rs[j].id;
    }
  }

  /** The shape of a routed debit: the person's record completed, the
      dispatcher's record (or a new one at the end) lowered by the magnitude,
      nothing else touched. */
  lemma RouteDebitEffect(rs: seq<SettlementPerson>, s: int, now: DateParts, freshId: int, dname: string)
    requires UniqueIds(rs) && 0 <= s < |rs|
    requires FindDispatcher(rs, dname).Some? ==> FindDispatcher(rs, dname).value != s
    ensures var r := RouteDebit(rs, rs[s], now, freshId, dname);
            var e := FindDispatcher(rs, dname);
            var m := Abs(rs[s].amount);
            && |r| == |rs| + (if e.None? then 1 else 0)
            && r[s] == Completed(rs[s], now, Some(dname))
            && (e.Some? ==> r[e.value] == rs[e.value].(amount := rs[e.value].amount - m))
            && (e.None? ==> r[|rs|] == NewDispatcher(freshId, dname, -m))
            && forall i :: 0 <= i < |rs| && i != s && (e.None? || i != e.value) ==> r[i] == rs[i]
  {
    RouteDebitAsUpdate(rs, s, now, freshId, dname);
  }

  /** The shape of a routed credit. */
  lemma RouteCreditEffect(rs: seq<SettlementPerson>, s: int, now: DateParts, freshId: int, dname: string)
    requires UniqueIds(rs) && 0 <= s < |rs|
    requires FindDispatcher(rs, dname).Some? ==> FindDispatcher(rs, dname).value != s
    ensures var r := RouteCredit(rs, rs[s], now, freshId, dname);
            var e := FindDispatcher(rs, dname);
            && |r| == |rs| + (if e.None? then 1 else 0)
            && r[s] == Completed(rs[s], now, Some(dname))
            && (e.Some? ==> r[e.value] == rs[e.value].(amount := rs[e.value].amount + rs[s].amount))
            && (e.None? ==> r[|rs|] == NewDispatcher(freshId, dname, rs[s].amount))
            && forall i :: 0 <= i < |rs| && i != s && (e.None? || i != e.value) ==> r[i] == rs[i]
  {
    var e := FindDispatcher(rs, dname);
    var r := RouteCredit(rs, rs[s], now, freshId, dname);
    if e.Some? {
      var k := e.value;
      forall i | 0 <= i < |rs| && i != k
        ensures rs[i].id != rs[k].id
      {
        assert i < k || k < i;
      }
      forall i | 0 <= i < |rs| && i != s
        ensures rs[i].id != rs[s].id
      {
        assert i < s || s < i;
      }
    } else {
      CompleteByIdAt(rs, s, now, Some(dname));
    }
  }

  /** Moving an open settlement onto an open dispatcher record (or a new one)
      leaves the saldo unchanged: a debit of magnitude m leaves the person and
      lands on the dispatcher as -m. */
  lemma RouteDebitKeepsSaldo(rs: seq<SettlementPerson>, s: int, now: DateParts, freshId: int, dname: string)
    requires UniqueIds(rs) && 0 <= s < |rs| && IsOpen(rs[s]) && rs[s].amount <= 0.0
    requires FindDispatcher(rs, dname).Some? ==>
               FindDispatcher(rs, dname).value != s && IsOpen(rs[FindDispatcher(rs, dname).value])
    ensures Saldo(RouteDebit(rs, rs[s], now, freshId, dname)) == Saldo(rs)
  {
    var e := FindDispatcher(rs, dname);
    var m := Abs(rs[s].amount);
    var c := Completed(rs[s], now, Some(dname));
    var done := rs[s := c];
    var r := RouteDebit(rs, rs[s], now, freshId, dname);
    RouteDebitAsUpdate(rs, s, now, freshId, dname);
    OpenSumUpdate(rs, s, c);
    assert Contribution(c) == 0.0 && Contribution(rs[s]) == -m;
    assert OpenSum(done) == OpenSum(rs) + m;
    if e.Some? {
      var k := e.value;
      var lowered := done[k].(amount := done[k].amount - m);
      assert r == done[k := lowered];
      OpenSumUpdate(done, k, lowered);
      assert Contribution(done[k]) == rs[k].amount && Contribution(lowered) == rs[k].amount - m;
    } else {
      var d := NewDispatcher(freshId, dname, -m);
      assert r == done + [d];
      OpenSumAppend(done, d);
      assert Contribution(d) == -m;
    }
    assert OpenSum(r) == OpenSum(rs);
    SaldoIsOpenSum(rs);
    SaldoIsOpenSum(r);
  }

  /** A routed debit as plain updates: the person's position completed, then
      the dispatcher's position lowered, or the new record appended. */
  lemma RouteDebitAsUpdate(rs: seq<SettlementPerson>, s: int, now: DateParts, freshId: int, dname: string)
    requires UniqueIds(rs) && 0 <= s < |rs|
    requires FindDispatcher(rs, dname).Some? ==> FindDispatcher(rs, dname).value != s
    ensures var done := rs[s := Completed(rs[s], now, Some(dname))];
            var e := FindDispatcher(rs, dname);
            var m := Abs(rs[s].amount);
            RouteDebit(rs, rs[s], now, freshId, dname) ==
              if e.Some? then done[e.value := done[e.value].(amount := done[e.value].amount - m)]
              else done + [NewDispatcher(freshId, dname, -m)]
  {
    var c := Completed(rs[s], now, Some(dname));
    var done := rs[s := c];
    CompleteByIdAt(rs, s, now, Some(dname));
    var e := FindDispatcher(rs, dname);
    if e.Some? {
      UniqueIdsAt(rs, s, c);
      assert done[e.value].id == rs[e.value].id;
      AdjustByIdAt(done, e.value, -Abs(rs[s].amount));
    }
  }

  /** The same for a credit, whatever the sign of the amount. */
  lemma RouteCreditKeepsSaldo(rs: seq<SettlementPerson>, s: int, now: DateParts, freshId: int, dname: string)
    requires UniqueIds(rs) && 0 <= s < |rs| && IsOpen(rs[s])
    requires FindDispatcher(rs, dname).Some? ==>
               FindDispatcher(rs, dname).value != s && IsOpen(rs[FindDispatcher(rs, dname).value])
    ensures Saldo(RouteCredit(rs, rs[s], now, freshId, dname)) == Saldo(rs)
  {
    var e := FindDispatcher(rs, dname);
    var r := RouteCredit(rs, rs[s], now, freshId, dname);
    var done := rs[s := Completed(rs[s], now, Some(dname))];
    RouteCreditEffect(rs, s, now, freshId, dname);
    OpenSumUpdate(rs, s, Completed(rs[s], now, Some(dname)));
    if e.Some? {
      var k := e.value;
      var x := done[k].(amount := done[k].amount + rs[s].amount);
      assert r == done[k := x];
      OpenSumUpdate(done, k, x);
    } else {
      CompleteByIdAt(rs, s, now, Some(dname));
      OpenSumAppend(done, NewDispatcher(freshId, dname, rs[s].amount));
    }
    SaldoIsOpenSum(rs);
    SaldoIsOpenSum(r);
  }

  /** The search for the dispatcher does not skip completed records, so a debit
      routed onto a dispatcher whose record is already completed vanishes from
      the totals: the saldo moves by the debit's magnitude. */
  lemma RouteDebitIntoCompletedDispatcher(rs: seq<SettlementPerson>, s: int, now: DateParts, freshId: int, dname: string)
    requires UniqueIds(rs) && 0 <= s < |rs| && IsOpen(rs[s]) && rs[s].amount <= 0.0
    requires FindDispatcher(rs, dname).Some? &&
             FindDispatcher(rs, dname).value != s && !IsOpen(rs[FindDispatcher(rs, dname).value])
    ensures Saldo(RouteDebit(rs, rs[s], now, freshId, dname)) == Saldo(rs) + Abs(rs[s].amount)
  {
    var k := FindDispatcher(rs, dname).value;
    var m := Abs(rs[s].amount);
    var c := Completed(rs[s], now, Some(dname));
    var done := rs[s := c];
    var lowered := done[k].(amount := done[k].amount - m);
    var r := RouteDebit(rs, rs[s], now, freshId, dname);
    RouteDebitAsUpdate(rs, s, now, freshId, dname);
    assert r == done[k := lowered];
    OpenSumUpdate(rs, s, c);
    assert Contribution(c) == 0.0 && Contribution(rs[s]) == -m;
    assert OpenSum(done) == OpenSum(rs) + m;
    OpenSumUpdate(done, k, lowered);
    assert Contribution(done[k]) == 0.0 && Contribution(lowered) == 0.0;
    assert OpenSum(r) == OpenSum(done);
    SaldoIsOpenSum(rs);
    SaldoIsOpenSum(r);
  }

  /** Routing keeps ids unique when the new dispatcher's id is fresh. */
  lemma RoutingKeepsUniqueIds(rs: seq<SettlementPerson>, person: SettlementPerson, now: DateParts,
                              freshId: int, dname: string)
    requires UniqueIds(rs) && !HasId(rs, freshId)
    ensures UniqueIds(RouteDebit(rs, person, now, freshId, dname))
    ensures UniqueIds(RouteCredit(rs, person, now, freshId, dname))
  {
    var d := RouteDebit(rs, person, now, freshId, dname);
    var c := RouteCredit(rs, person, now, freshId, dname);
    assert forall i :: 0 <= i < |rs| ==> d[i].id == rs[i].id && c[i].id == rs[i].id;
    if FindDispatcher(rs, dname).None? {
      assert d[|rs|].id == freshId && c[|rs|].id == freshId;
    }
  }

  // ---------------------------------------------------------------------
  // Deposit and commission

  /** The deposit-and-commission record: a driver debit of both amounts that
      always goes through a dispatcher. */
  function DepositRecord(deposit: real, commission: real, language: string): SettlementPerson
  {
    SettlementPerson(DepositId,
      if language == "ru" then "Депозит и комиссия" else "Deposit and comission",
      -(deposit + commission), Driver, true, "", None, None)
  }

  /** The list after pressing "add deposit and commission": the record is
      appended unless one with its id exists. */
  function WithDeposit(rs: seq<SettlementPerson>, deposit: real, commission: real, language: string): (r: seq<SettlementPerson>)
    ensures HasId(r, DepositId)
    ensures HasId(rs, DepositId) ==> r == rs
    ensures !HasId(rs, DepositId) ==> r == rs + [DepositRecord(deposit, commission, language)]
    ensures UniqueIds(rs) ==> UniqueIds(r)
  {
    if HasId(rs, DepositId) then rs
    else
      var r := rs + [DepositRecord(deposit, commission, language)];
      assert r[|rs|].id == DepositId;
      r
  }

  /** Adding the deposit twice is the same as adding it once. */
  lemma WithDepositIdempotent(rs: seq<SettlementPerson>, deposit: real, commission: real, language: string,
                              deposit2: real, commission2: real)
    ensures var once := WithDeposit(rs, deposit, commission, language);
            WithDeposit(once, deposit2, commission2, language) == once
  {
  }

  /** Adding the deposit lowers the saldo by deposit plus commission. */
  lemma WithDepositSaldo(rs: seq<SettlementPerson>, deposit: real, commission: real, language: string)
    requires !HasId(rs, DepositId)
    ensures Saldo(WithDeposit(rs, deposit, commission, language)) == Saldo(rs) - (deposit + commission)
  {
    OpenSumAppend(rs, DepositRecord(deposit, commission, language));
    SaldoIsOpenSum(rs);
    SaldoIsOpenSum(WithDeposit(rs, deposit, commission, language));
  }

  // ---------------------------------------------------------------------
  // Settlement buttons and dispatcher controls

  /** The settlement button a record shows, and whether it is enabled: open
      drivers, and open dispatchers with a non-zero balance, get "debit" for a
      negative amount and "accept" otherwise. */
  datatype SettleButton = SettleButton(action: SettlementAction, enabled: bool)

  function SettleButtonFor(p: SettlementPerson, showQRResult: Option<Tab>): (r: Option<SettleButton>)
    ensures r.Some? <==> IsOpen(p) && (p.kind == Driver || p.amount != 0.0)
    ensures r.Some? ==> (r.value.action == Debit <==> p.amount < 0.0)
    ensures r.Some? && r.value.enabled && p.throughDispatcher ==> ThroughChosenDispatcher(p) && p.kind == Driver
    ensures r.Some? && p.kind == Driver && !p.throughDispatcher ==> r.value.enabled
  {
    if !IsOpen(p) || (p.kind == Dispatcher && p.amount == 0.0) then None
    else
      var disabled :=
        (p.kind == Dispatcher && p.throughDispatcher)
        || (p.throughDispatcher && p.selectedDispatcher == "")
        || (p.kind == Dispatcher && showQRResult == Some(Settlements));
      Some(SettleButton(if p.amount < 0.0 then Debit else Credit, !disabled))
  }

  /** The "through dispatcher" checkbox is shown for drivers and locked on the
      deposit record. */
  predicate DispatcherToggleEnabled(p: SettlementPerson)
  {
    p.kind == Driver && p.id != DepositId
  }

  /** Toggling "through dispatcher" on the records with the id; the choice of
      dispatcher is cleared. */
  function ToggleDispatcher(rs: seq<SettlementPerson>, id: int): (r: seq<SettlementPerson>)
    ensures |r| == |rs|
    ensures forall i :: 0 <= i < |rs| && rs[i].id != id ==> r[i] == rs[i]
    ensures forall i :: 0 <= i < |rs| && rs[i].id == id ==>
              r[i] == rs[i].(throughDispatcher := !rs[i].throughDispatcher, selectedDispatcher := "")
    ensures forall i :: 0 <= i < |rs| && rs[i].id == id ==> !ThroughChosenDispatcher(r[i])
  {
    seq(|rs|, i requires 0 <= i < |rs| =>
      if rs[i].id == id then rs[i].(throughDispatcher := !rs[i].throughDispatcher, selectedDispatcher := "")
      else rs[i])
  }

  /** Choosing a dispatcher for the records with the id. */
  function SelectDispatcher(rs: seq<SettlementPerson>, id: int, dispatcher: string): (r: seq<SettlementPerson>)
    ensures |r| == |rs|
    ensures forall i :: 0 <= i < |rs| && rs[i].id != id ==> r[i] == rs[i]
    ensures forall i :: 0 <= i < |rs| && rs[i].id == id ==> r[i] == rs[i].(selectedDispatcher := dispatcher)
  {
    seq(|rs|, i requires 0 <= i < |rs| => if rs[i].id == id then rs[i].(selectedDispatcher := dispatcher) else rs[i])
  }

  /** Toggling twice restores every record except that the choice of
      dispatcher is gone. */
  lemma ToggleDispatcherTwice(rs: seq<SettlementPerson>, id: int)
    ensures var r := ToggleDispatcher(ToggleDispatcher(rs, id), id);
            forall i :: 0 <= i < |rs| ==>
              r[i] == if rs[i].id == id then rs[i].(selectedDispatcher := "") else rs[i]
  {
  }

  lemma ControlsKeepIds(rs: seq<SettlementPerson>, id: int, dispatcher: string)
    ensures UniqueIds(rs) ==> UniqueIds(ToggleDispatcher(rs, id)) && UniqueIds(SelectDispatcher(rs, id, dispatcher))
  {
    var t := ToggleDispatcher(rs, id);
    var s := SelectDispatcher(rs, id, dispatcher);
    assert forall i :: 0 <= i < |rs| ==> t[i].id == rs[i].id && s[i].id == rs[i].id;
  }

  // ---------------------------------------------------------------------
  // QR check for a settlement

  /** Whether the scanned QR code may be accepted for the current settlement:
      on the settlements tab, with a settlement in progress, no scan error,
      and scanned data whose sum is within 0.1 of the settlement's magnitude
      and whose recipient is the settlement's name. */
  function IsQRValidForSettlement(tab: Tab, current: Option<SettlementPerson>,
                                  scanned: Option<QRScanData>, qrError: Option<QRError>): (r: bool)
    ensures r <==>
      && tab == Settlements
      && current.Some?
      && qrError.None?
      && scanned.Some?
      && Abs(scanned.value.sum - Abs(current.value.amount)) < 0.1
      && scanned.value.recipient == current.value.name
  {
    if tab != Settlements || current.None? || (scanned.None? && qrError.Some?) then false
    else match qrError
      case Some(NotFound) => false
      case Some(Mismatch) => false
      case None =>
        var sum := if scanned.Some? then scanned.value.sum else 0.0;
        var sumValid := Abs(sum - Abs(current.value.amount)) < 0.1;
        var nameValid := scanned.Some? && scanned.value.recipient == current.value.name;
        sumValid && nameValid
  }

  /** Some concrete cases: the right code passes, a few kopecks of float
      noise pass, a wrong sum or a wrong recipient fail, and so does a
      missing scan even when its sum would match. */
  lemma QRValidityExamples(now: DateParts)
    ensures var p := SettlementPerson(2, "Водитель Смирнов", -450.0, Driver, false, "", None, None);
            && IsQRValidForSettlement(Settlements, Some(p), Some(QRScanData(450.0, "Водитель Смирнов", "")), None)
            && IsQRValidForSettlement(Settlements, Some(p), Some(QRScanData(450.05, "Водитель Смирнов", "")), None)
            && !IsQRValidForSettlement(Settlements, Some(p), Some(QRScanData(451.0, "Водитель Смирнов", "")), None)
            && !IsQRValidForSettlement(Settlements, Some(p), Some(QRScanData(450.0, "Водитель Иванов", "")), None)
            && !IsQRValidForSettlement(Settlements, Some(p.(amount := 0.0)), None, None)
            && !IsQRValidForSettlement(Operations, Some(p), Some(QRScanData(450.0, "Водитель Смирнов", "")), None)
  {
  }

  /** The QR code generated for a debit carries the person's own amount and
      name, so scanning it back always passes the check. */
  /** A reported scan error fails the QR check, whatever was scanned. */
  lemma ScanErrorFails(tab: Tab, current: Option<SettlementPerson>, scanned: Option<QRScanData>, e: QRError)
    ensures !IsQRValidForSettlement(tab, current, scanned, Some(e))
  {
  }

  lemma GeneratedQRPasses(p: SettlementPerson, created: string)
    ensures IsQRValidForSettlement(Settlements, Some(p), Some(QRScanData(Abs(p.amount), p.name, created)), None)
  {
    assert Abs(Abs(p.amount) - Abs(p.amount)) == 0.0;
  }

  // ---------------------------------------------------------------------
  // Payment-method filter of the operations list

  predicate NoDuplicates<T(==)>(s: seq<T>)
  {
    forall i, j :: 0 <= i < j < |s| ==> s[i] != s[j]
  }

  /** A filter list is never empty and names each method at most once. */
  predicate FiltersWellFormed(fs: seq<PaymentFilter>)
  {
    |fs| >= 1 && NoDuplicates(fs)
  }

  /** The filter list after pressing a filter: "all" selects both; a selected
      method is removed unless that would leave none, in which case both are
      selected; an unselected method is appended. */
  function ToggleFilters(prev: seq<PaymentFilter>, choice: FilterChoice): (r: seq<PaymentFilter>)
    ensures |r| >= 1
    ensures choice.All? ==> r == [Qr, Cash]
    ensures choice.Only? && choice.pick !in prev ==> r == prev + [choice.pick]
    ensures choice.Only? && choice.pick in prev ==> choice.pick !in r || r == [Qr, Cash]
  {
    match choice
    case All => [Qr, Cash]
    case Only(f) =>
      if f in prev then
        var rest := Filter(prev, g => g != f);
        if |rest| == 0 then [Qr, Cash] else rest
      else prev + [f]
  }

  lemma {:induction false} FilterKeepsNoDuplicates<T(!new)>(s: seq<T>, keep: T -> bool)
    requires NoDuplicates(s)
    ensures NoDuplicates(Filter(s, keep))
    decreases |s|
  {
    if s != [] {
      FilterKeepsNoDuplicates(s[1..], keep);
      var rest := Filter(s[1..], keep);
      if keep(s[0]) {
        assert s[0] !in s[1..];
        assert s[0] !in rest;
        var r := [s[0]] + rest;
        forall i, j | 0 <= i < j < |r|
          ensures r[i] != r[j]
        {
          if i == 0 {
            assert r[j] == rest[j - 1];
          } else {
            assert r[i] == rest[i - 1] && r[j] == rest[j - 1];
          }
        }
      }
    }
  }

  /** Toggling keeps the filter list well formed, and afterwards it selects
      exactly: both methods for "all"; the previous set without the method,
      or both when that set would be empty; the previous set plus the method. */
  lemma ToggleFiltersSets(prev: seq<PaymentFilter>, choice: FilterChoice)
    requires FiltersWellFormed(prev)
    ensures FiltersWellFormed(ToggleFilters(prev, choice))
    ensures var r := ToggleFilters(prev, choice);
            forall g :: g in r <==>
              match choice
              case All => true
              case Only(f) =>
                if f !in prev then g in prev || g == f
                else if prev == [f] then true
                else g in prev && g != f
  {
    match choice
    case All =>
      forall g: PaymentFilter
        ensures g in ToggleFilters(prev, choice)
      {
        TwoMethodsCoverAll(Qr, Cash, g);
      }
    case Only(f) =>
      if f in prev {
        ToggleRemoves(prev, f);
      } else {
        ToggleAdds(prev, f);
      }
  }

  /** Pressing a selected method removes it, or restores both when it was
      the only one. */
  lemma ToggleRemoves(prev: seq<PaymentFilter>, f: PaymentFilter)
    requires FiltersWellFormed(prev) && f in prev
    ensures var r := ToggleFilters(prev, Only(f));
            && FiltersWellFormed(r)
            && (prev == [f] ==> r == [Qr, Cash])
            && (prev != [f] ==> forall g :: g in r <==> g in prev && g != f)
  {
    var rest := Filter(prev, g => g != f);
    FilterKeepsNoDuplicates(prev, g => g != f);
    FilterOfOnly(f);
    if |rest| == 0 {
      assert forall g :: g in prev ==> g == f;
      AllEqualRepeat(prev, f);
      assert prev == [f];
    }
  }

  /** Pressing an unselected method appends it. */
  lemma ToggleAdds(prev: seq<PaymentFilter>, f: PaymentFilter)
    requires FiltersWellFormed(prev) && f !in prev
    ensures FiltersWellFormed(ToggleFilters(prev, Only(f)))
  {
    var r := prev + [f];
    forall i, j | 0 <= i < j < |r|
      ensures r[i] != r[j]
    {
      if j == |prev| {
        assert r[i] == prev[i];
      }
    }
  }

  /** Whether a transaction passes the payment filter: everything passes when
      both methods are selected, otherwise its method must be selected. */
  predicate MatchesPayment(fs: seq<PaymentFilter>, t: Transaction)
  {
    |fs| == 2 || t.paymentMethod in fs
  }

  function FilteredTransactions(ts: seq<Transaction>, fs: seq<PaymentFilter>): seq<Transaction>
  {
    Filter(ts, t => MatchesPayment(fs, t))
  }

  /** For a well-formed filter list the filter keeps exactly the transactions
      paid by a selected method, in their order, and keeps them all when both
      methods are selected. */
  lemma FilteredTransactionsSelects(ts: seq<Transaction>, fs: seq<PaymentFilter>)
    requires FiltersWellFormed(fs)
    ensures forall t :: t in FilteredTransactions(ts, fs) <==> t in ts && t.paymentMethod in fs
    ensures Qr in fs && Cash in fs ==> FilteredTransactions(ts, fs) == ts
  {
    FiltersAtMostTwo(fs);
    SingleMethod(fs);
    if |fs| == 2 {
      forall g: PaymentFilter
        ensures g in fs
      {
        TwoMethodsCoverAll(fs[0], fs[1], g);
      }
      FilterKeepsAll(ts, t => MatchesPayment(fs, t));
    }
  }

  /** Removing the only method leaves nothing. */
  lemma FilterOfOnly(f: PaymentFilter)
    ensures Filter([f], g => g != f) == []
  {
    assert [f][1..] == [];
  }

  /** A list whose elements all equal `f` repeats `f` once it has two. */
  lemma AllEqualRepeat(s: seq<PaymentFilter>, f: PaymentFilter)
    ensures (forall g :: g in s ==> g == f) && |s| > 1 ==> s[0] == s[1]
  {
    if |s| > 1 {
      assert s[0] in s && s[1] in s;
    }
  }

  /** A one-element list names one method. */
  lemma SingleMethod(fs: seq<PaymentFilter>)
    ensures |fs| == 1 && Qr in fs ==> Cash !in fs
  {
    if |fs| == 1 {
      assert fs == [fs[0]];
    }
  }

  /** Two different payment methods are all the methods there are. */
  lemma TwoMethodsCoverAll(a: PaymentFilter, b: PaymentFilter, g: PaymentFilter)
    requires a != b
    ensures g == a || g == b
  {
  }

  /** A list without duplicates names at most the two methods. */
  lemma FiltersAtMostTwo(fs: seq<PaymentFilter>)
    requires NoDuplicates(fs)
    ensures |fs| <= 2
  {
    ThreeMethodsRepeat(fs);
  }

  /** Among any three payment methods two coincide. */
  lemma ThreeMethodsRepeat(fs: seq<PaymentFilter>)
    ensures |fs| > 2 ==> fs[0] == fs[1] || fs[0] == fs[2] || fs[1] == fs[2]
  {
  }

  /** Expanding or collapsing the transactions with the id. */
  function ToggleExpanded(ts: seq<Transaction>, id: int): (r: seq<Transaction>)
    ensures |r| == |ts|
    ensures forall i :: 0 <= i < |ts| && ts[i].id != id ==> r[i] == ts[i]
    ensures forall i :: 0 <= i < |ts| && ts[i].id == id ==> r[i] == ts[i].(expanded := !ts[i].expanded)
  {
    seq(|ts|, i requires 0 <= i < |ts| => if ts[i].id == id then ts[i].(expanded := !ts[i].expanded) else ts[i])
  }

  lemma ToggleExpandedTwice(ts: seq<Transaction>, id: int)
    ensures ToggleExpanded(ToggleExpanded(ts, id), id) == ts
  {
  }
}
