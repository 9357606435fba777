/**
 The project ledger (internal/crmapi/projects_logic.go, projects_pipeline.go, projects_mutations.go):
 at most one intro and one main contract, payments in cents, the intro paid amount credited to the
 main contract of the same currency, and the pipeline stage.

 Every handler locks the project row first, so each one is an atomic step on one project.
 */
module Ledger {
  import opened Prelude

  type ContractId = nat
  type PaymentId = nat
  type Date = nat

  datatype Kind = Intro | Main
  datatype Currency = Unset | PLN | UAH | EUR | USD

  datatype Stage =
    | Estimate | IntroContract | Measure | Design | MainContract | Prepayment
    | Factory | Production | FinalPayment | Installation | Completed | Cancelled

  datatype Contract = Contract(id: ContractId, kind: Kind, total: int, currency: Currency)
  datatype Payment = Payment(id: PaymentId, contract: ContractId, amount: int)

  /** A contract with the sum of its payments: projectContractRow. */
  datatype Row = Row(id: ContractId, kind: Kind, total: int, currency: Currency, paid: int)

  datatype Money = Money(hasIntro: bool, hasMain: bool, introTotal: int, introPaid: int, mainTotal: int, mainPaid: int,
                         introCurrency: Currency, mainCurrency: Currency)

  const NO_MONEY := Money(false, false, 0, 0, 0, 0, Unset, Unset)
  const MAX_CENTS := 100_000_000_000
  const INT64_MAX := 0x7fff_ffff_ffff_ffff

  function Min(a: int, b: int): int { if a <= b then a else b }

  function Max(a: int, b: int): int { if a >= b then a else b }

  // ---- money rules ---------------------------------------------------------------------------

  function Credited(m: Money): int {
    if !m.hasIntro || !m.hasMain || m.introCurrency != m.mainCurrency then 0 else Min(m.introPaid, m.mainTotal)
  }

  function MainRemaining(m: Money): int {
    Max(0, m.mainTotal - (m.mainPaid + Credited(m)))
  }

  function IntroRemaining(m: Money): int {
    Max(0, m.introTotal - m.introPaid)
  }

  /** The most that may still be recorded on a contract of this kind. */
  function MaxPayment(m: Money, kind: Kind): int {
    if kind.Main? then MainRemaining(m)
    else if m.hasMain && m.introCurrency == m.mainCurrency then
      Min(IntroRemaining(m), Max(0, m.mainTotal - m.mainPaid - m.introPaid))
    else IntroRemaining(m)
  }

  datatype Overpayment = Fine | IntroOver(paid: int) | MainOver(paid: int)

  /** overpaid: the first forbidden balance, with the paid amount its message names. */
  function Overpaid(m: Money): Overpayment {
    var counted := if m.hasIntro && m.introCurrency == m.mainCurrency then m.mainPaid + m.introPaid else m.mainPaid;
    if m.hasIntro && m.introPaid > m.introTotal then IntroOver(m.introPaid)
    else if m.hasMain && counted > m.mainTotal then MainOver(counted)
    else Fine
  }

  function Has(m: Money, kind: Kind): bool {
    if kind.Intro? then m.hasIntro else m.hasMain
  }

  /** The balance after recording one more payment on the contract of this kind. */
  function Recorded(m: Money, kind: Kind, amount: int): Money {
    if kind.Intro? then m.(introPaid := m.introPaid + amount) else m.(mainPaid := m.mainPaid + amount)
  }

  /** In a balance that is not overpaid, maxPayment admits exactly the amounts that keep it so. */
  lemma {:induction false} MaxPaymentIsExact(m: Money, kind: Kind, amount: int)
    requires Overpaid(m).Fine? && Has(m, kind) && m.introPaid >= 0 && m.mainPaid >= 0 && amount > 0
    ensures amount <= MaxPayment(m, kind) <==> Overpaid(Recorded(m, kind, amount)).Fine?
  {
  }

  /** The limit admits exactly the positive amounts that leave the balance fine. */
  ghost predicate LimitIsExact(m: Money, kind: Kind) {
    forall amount: int :: amount > 0 ==> (amount <= MaxPayment(m, kind) <==> Overpaid(Recorded(m, kind, amount)).Fine?)
  }

  /** In an overpaid balance no payment is right, so the limit is exact there only when it is zero. */
  lemma {:induction false} LimitIsExactIff(m: Money, kind: Kind)
    requires Has(m, kind) && m.introPaid >= 0 && m.mainPaid >= 0
    ensures LimitIsExact(m, kind) <==> Overpaid(m).Fine? || MaxPayment(m, kind) == 0
  {
    if Overpaid(m).Fine? {
      forall amount: int | amount > 0
        ensures amount <= MaxPayment(m, kind) <==> Overpaid(Recorded(m, kind, amount)).Fine?
      {
        MaxPaymentIsExact(m, kind, amount);
      }
    } else {
      OverpaidStays(m, kind);
      assert MaxPayment(m, kind) > 0 ==> 1 <= MaxPayment(m, kind) && !Overpaid(Recorded(m, kind, 1)).Fine?;
    }
  }

  lemma {:induction false} OverpaidStays(m: Money, kind: Kind)
    requires !Overpaid(m).Fine?
    ensures forall amount: int :: amount > 0 ==> !Overpaid(Recorded(m, kind, amount)).Fine?
    ensures MaxPayment(m, kind) >= 0
  {
  }

  /** Such a balance: with the intro contract overpaid, a main payment is still admitted. */
  lemma {:induction false} MaxPaymentNeedsBalance()
    ensures var m := Money(true, true, 100, 200, 1000, 0, PLN, PLN);
            !Overpaid(m).Fine? && MaxPayment(m, Main) == 800 && !LimitIsExact(m, Main)
  {
    var m := Money(true, true, 100, 200, 1000, 0, PLN, PLN);
    LimitIsExactIff(m, Main);
  }

  // ---- loading the rows ----------------------------------------------------------------------

  /** Sum of a contract's payments, without the excluded one. */
  function Paid(payments: seq<Payment>, contract: ContractId, exclude: Option<PaymentId>): int {
    if payments == [] then 0
    else
      var p := payments[|payments| - 1];
      Paid(payments[..|payments| - 1], contract, exclude)
      + (if p.contract == contract && Some(p.id) != exclude then p.amount else 0)
  }

  function RowOf(c: Contract, payments: seq<Payment>, exclude: Option<PaymentId>): Row {
    Row(c.id, c.kind, c.total, c.currency, Paid(payments, c.id, exclude))
  }

  function Rows(contracts: seq<Contract>, payments: seq<Payment>, exclude: Option<PaymentId>): (rows: seq<Row>)
    ensures |rows| == |contracts|
  {
    seq(|contracts|, i requires 0 <= i < |contracts| => RowOf(contracts[i], payments, exclude))
  }

  function WithRow(m: Money, row: Row): Money {
    match row.kind
    case Intro => m.(hasIntro := true, introTotal := row.total, introPaid := row.paid, introCurrency := row.currency)
    case Main => m.(hasMain := true, mainTotal := row.total, mainPaid := row.paid, mainCurrency := row.currency)
  }

  function MoneyOf(rows: seq<Row>): Money {
    if rows == [] then NO_MONEY else WithRow(MoneyOf(rows[..|rows| - 1]), rows[|rows| - 1])
  }

  method MoneyFromContracts(rows: seq<Row>) returns (m: Money)
    ensures m == MoneyOf(rows)
  {
    m := NO_MONEY;
    for i := 0 to |rows|
      invariant m == MoneyOf(rows[..i])
    {
      assert rows[..i + 1][..i] == rows[..i];
      var row := rows[i];
      match row.kind {
        case Intro =>
          m := m.(hasIntro := true, introTotal := row.total, introPaid := row.paid, introCurrency := row.currency);
        case Main =>
          m := m.(hasMain := true, mainTotal := row.total, mainPaid := row.paid, mainCurrency := row.currency);
      }
    }
    assert rows[..|rows|] == rows;
  }

  /** The balance holds this row's figures. */
  predicate Reads(m: Money, r: Row) {
    if r.kind.Intro?
    then m.hasIntro && m.introTotal == r.total && m.introPaid == r.paid && m.introCurrency == r.currency
    else m.hasMain && m.mainTotal == r.total && m.mainPaid == r.paid && m.mainCurrency == r.currency
  }

  /** With one row per kind, the balance reads each row where it is, in any order. */
  lemma {:induction false} MoneyReadsRow(rows: seq<Row>, i: nat)
    requires i < |rows|
    requires forall j, k :: 0 <= j < k < |rows| ==> rows[j].kind != rows[k].kind
    ensures Reads(MoneyOf(rows), rows[i])
  {
    if i < |rows| - 1 {
      MoneyReadsRow(rows[..|rows| - 1], i);
    }
  }

  /** The given contract, else the main one, else the intro one. */
  method PickPaymentContract(rows: seq<Row>, id: Option<ContractId>) returns (picked: Option<Row>)
    ensures picked == PickSpec(rows, id)
  {
    var main: Option<Row> := None;
    var intro: Option<Row> := None;
    for i := 0 to |rows|
      invariant id.Some? ==> forall k :: 0 <= k < i ==> rows[k].id != id.value
      invariant main == LastOfKind(rows[..i], Main) && intro == LastOfKind(rows[..i], Intro)
    {
      assert rows[..i + 1][..i] == rows[..i];
      if id.Some? && rows[i].id == id.value {
        FirstWithIs(rows, id.value, i);
        return Some(rows[i]);
      }
      match rows[i].kind {
        case Main => main := Some(rows[i]);
        case Intro => intro := Some(rows[i]);
      }
    }
    assert rows[..|rows|] == rows;
    if id.Some? {
      NoneWith(rows, id.value);
      return None;
    }
    return if main.Some? then main else intro;
  }

  function PickSpec(rows: seq<Row>, id: Option<ContractId>): Option<Row> {
    if id.Some? then FirstWith(rows, id.value)
    else if LastOfKind(rows, Main).Some? then LastOfKind(rows, Main)
    else LastOfKind(rows, Intro)
  }

  function LastOfKind(rows: seq<Row>, kind: Kind): Option<Row> {
    if rows == [] then None
    else if rows[|rows| - 1].kind == kind then Some(rows[|rows| - 1])
    else LastOfKind(rows[..|rows| - 1], kind)
  }

  function FirstWith(rows: seq<Row>, id: ContractId): Option<Row> {
    if rows == [] then None else if rows[0].id == id then Some(rows[0]) else FirstWith(rows[1..], id)
  }

  lemma {:induction false} FirstWithIs(rows: seq<Row>, id: ContractId, i: nat)
    requires i < |rows| && rows[i].id == id && forall k :: 0 <= k < i ==> rows[k].id != id
    ensures FirstWith(rows, id) == Some(rows[i])
  {
    if i > 0 {
      FirstWithIs(rows[1..], id, i - 1);
    }
  }

  lemma {:induction false} NoneWith(rows: seq<Row>, id: ContractId)
    requires forall k :: 0 <= k < |rows| ==> rows[k].id != id
    ensures FirstWith(rows, id).None?
  {
    if rows != [] {
      NoneWith(rows[1..], id);
    }
  }

  /**
   Whatever is picked is a row of the project, and nothing is picked only when the id is unknown or there is
   no contract.
   */
  lemma {:induction false} PickIsARow(rows: seq<Row>, id: Option<ContractId>)
    ensures PickSpec(rows, id).Some? ==> PickSpec(rows, id).value in rows
    ensures PickSpec(rows, id).None? ==> if id.Some? then forall r :: r in rows ==> r.id != id.value else rows == []
  {
    if rows != [] {
      PickIsARow(rows[1..], id);
      PickIsARow(rows[..|rows| - 1], id);
    }
  }

  /** The balance is the latest intro row and the latest main row; with one row per kind, the rows themselves. */
  function MoneyOfPair(intro: Option<Row>, main: Option<Row>): Money {
    var m := if intro.Some? then WithRow(NO_MONEY, intro.value.(kind := Intro)) else NO_MONEY;
    if main.Some? then WithRow(m, main.value.(kind := Main)) else m
  }

  lemma {:induction false} MoneyIsOfPair(rows: seq<Row>)
    ensures MoneyOf(rows) == MoneyOfPair(LastOfKind(rows, Intro), LastOfKind(rows, Main))
  {
    if rows != [] {
      MoneyIsOfPair(rows[..|rows| - 1]);
    }
  }

  // ---- one project ---------------------------------------------------------------------------

  datatype Line = Kitchen | Appliances | InstallationLine | Countertop
  datatype Quote = Quote(amount: int, currency: Currency)

  /** `event` is the date planned for the current stage. */
  datatype Project = Project(stage: Stage, event: Option<Date>, beforeCancel: Option<Stage>,
                             contracts: seq<Contract>, payments: seq<Payment>, estimate: map<Line, Quote>,
                             nextContract: ContractId, nextPayment: PaymentId)

  const NEW_PROJECT := Project(Estimate, None, None, [], [], map[], 0, 0)

  datatype Error =
    | InvalidRequest | ProjectCancelled | NotCancelled
    | ContractExists | ContractNotFound | ContractHasPayments | ContractRequired
    | CurrencyLocked | TotalBelowPaid(why: Overpayment) | AboveRemaining(limit: int)
    | PaymentNotFound | EstimateLocked

  datatype Op =
    | AddContract(kind: Kind, total: int, currency: Currency)
    | EditContract(contract: ContractId, newTotal: Option<int>, newCurrency: Option<Currency>)
    | DeleteContract(contract: ContractId)
    | AddPayment(toContract: Option<ContractId>, amount: int)
    | EditPayment(payment: PaymentId, newAmount: Option<int>)
    | DeletePayment(payment: PaymentId)
    | SetEstimate(lines: map<Line, Option<Quote>>)
    | ChangeStage(stage: Stage, event: Option<Date>)
    | Cancel
    | Restore

  /** moneyToCents accepts 0.01 up to a billion. */
  predicate ValidCents(cents: int) {
    1 <= cents <= MAX_CENTS
  }

  /** Position in the pipeline; cancelled is outside it. */
  function StageIndex(stage: Stage): int {
    match stage
    case Estimate => 0
    case IntroContract => 1
    case Measure => 2
    case Design => 3
    case MainContract => 4
    case Prepayment => 5
    case Factory => 6
    case Production => 7
    case FinalPayment => 8
    case Installation => 9
    case Completed => 10
    case Cancelled => -1
  }

  function ContractStage(kind: Kind): Stage {
    if kind.Intro? then IntroContract else MainContract
  }

  function StageAfterContract(current: Stage, kind: Kind): Stage {
    if StageIndex(current) < StageIndex(ContractStage(kind)) then ContractStage(kind) else current
  }

  /** Contract stages come from adding a contract and `cancelled` from Cancel: neither can be picked. */
  predicate Changeable(stage: Stage, event: Option<Date>) {
    && !stage.IntroContract? && !stage.MainContract? && !stage.Cancelled?
    && (stage.Completed? ==> event.None?)
    && (stage.Measure? ==> event.Some?)
  }

  predicate ValidLines(lines: map<Line, Option<Quote>>) {
    && lines != map[]
    && forall line :: line in lines && lines[line].Some? ==>
         ValidCents(lines[line].value.amount) && !lines[line].value.currency.Unset?
  }

  function ContractAt(contracts: seq<Contract>, id: ContractId): (i: nat)
    ensures i <= |contracts|
    ensures i < |contracts| ==> contracts[i].id == id
    ensures forall k :: 0 <= k < i ==> contracts[k].id != id
  {
    if contracts == [] || contracts[0].id == id then 0
    else
      var i := ContractAt(contracts[1..], id);
      assert forall k :: 1 <= k <= i ==> contracts[k] == contracts[1..][k - 1];
      i + 1
  }

  function PaymentAt(payments: seq<Payment>, id: PaymentId): (i: nat)
    ensures i <= |payments|
    ensures i < |payments| ==> payments[i].id == id
    ensures forall k :: 0 <= k < i ==> payments[k].id != id
  {
    if payments == [] || payments[0].id == id then 0
    else
      var i := PaymentAt(payments[1..], id);
      assert forall k :: 1 <= k <= i ==> payments[k] == payments[1..][k - 1];
      i + 1
  }

  predicate HasKind(contracts: seq<Contract>, kind: Kind) {
    exists i :: 0 <= i < |contracts| && contracts[i].kind == kind
  }

  predicate HasContract(contracts: seq<Contract>, id: ContractId) {
    exists i :: 0 <= i < |contracts| && contracts[i].id == id
  }

  predicate HasPayments(payments: seq<Payment>, contract: ContractId) {
    exists i :: 0 <= i < |payments| && payments[i].contract == contract
  }

  function Without<T>(xs: seq<T>, i: nat): seq<T>
    requires i < |xs|
  {
    xs[..i] + xs[i + 1..]
  }

  function Edited(c: Contract, newTotal: Option<int>, newCurrency: Option<Currency>): Contract {
    c.(total := if newTotal.Some? then newTotal.value else c.total,
       currency := if newCurrency.Some? then newCurrency.value else c.currency)
  }

  function Requoted(estimate: map<Line, Quote>, lines: map<Line, Option<Quote>>): map<Line, Quote> {
    map line | line in estimate.Keys + lines.Keys
               && (if line in lines then lines[line].Some? else true)
             :: if line in lines then lines[line].value else estimate[line]
  }

  function AddContractStep(p: Project, kind: Kind, total: int, currency: Currency): Result<Project, Error> {
    var candidate := Rows(p.contracts, p.payments, None) + [Row(p.nextContract, kind, total, currency, 0)];
    if !ValidCents(total) || currency.Unset? then Err(InvalidRequest)
    else if p.stage.Cancelled? then Err(ProjectCancelled)
    else if HasKind(p.contracts, kind) then Err(ContractExists)
    else if !Overpaid(MoneyOf(candidate)).Fine? then Err(TotalBelowPaid(Overpaid(MoneyOf(candidate))))
    else Ok(p.(contracts := p.contracts + [Contract(p.nextContract, kind, total, currency)],
               nextContract := p.nextContract + 1, stage := StageAfterContract(p.stage, kind),
               event := if StageAfterContract(p.stage, kind) != p.stage then None else p.event))
  }

  function EditContractStep(p: Project, id: ContractId, newTotal: Option<int>, newCurrency: Option<Currency>)
    : Result<Project, Error>
  {
    var i := ContractAt(p.contracts, id);
    if (newTotal.Some? && !ValidCents(newTotal.value)) || newCurrency == Some(Unset) then Err(InvalidRequest)
    else if p.stage.Cancelled? then Err(ProjectCancelled)
    else if i == |p.contracts| then Err(ContractNotFound)
    else
      var c := Edited(p.contracts[i], newTotal, newCurrency);
      var money := MoneyOf(Rows(p.contracts[i := c], p.payments, None));
      if c.currency != p.contracts[i].currency && Paid(p.payments, id, None) > 0 then Err(CurrencyLocked)
      else if !Overpaid(money).Fine? then Err(TotalBelowPaid(Overpaid(money)))
      else Ok(p.(contracts := p.contracts[i := c]))
  }

  function DeleteContractStep(p: Project, id: ContractId): Result<Project, Error> {
    var i := ContractAt(p.contracts, id);
    if p.stage.Cancelled? then Err(ProjectCancelled)
    else if i == |p.contracts| then Err(ContractNotFound)
    else if HasPayments(p.payments, id) then Err(ContractHasPayments)
    else Ok(p.(contracts := Without(p.contracts, i)))
  }

  function AddPaymentStep(p: Project, to: Option<ContractId>, amount: int): Result<Project, Error> {
    var rows := Rows(p.contracts, p.payments, None);
    var target := PickSpec(rows, to);
    if !ValidCents(amount) then Err(InvalidRequest)
    else if p.stage.Cancelled? then Err(ProjectCancelled)
    else if target.None? then Err(if to.Some? then ContractNotFound else ContractRequired)
    else if amount > MaxPayment(MoneyOf(rows), target.value.kind) then
      Err(AboveRemaining(MaxPayment(MoneyOf(rows), target.value.kind)))
    else Ok(p.(payments := p.payments + [Payment(p.nextPayment, target.value.id, amount)],
               nextPayment := p.nextPayment + 1))
  }

  function EditPaymentStep(p: Project, id: PaymentId, newAmount: Option<int>): Result<Project, Error> {
    var i := PaymentAt(p.payments, id);
    if newAmount.Some? && !ValidCents(newAmount.value) then Err(InvalidRequest)
    else if p.stage.Cancelled? then Err(ProjectCancelled)
    else if i == |p.payments| || ContractAt(p.contracts, p.payments[i].contract) == |p.contracts| then
      Err(PaymentNotFound)
    else if newAmount.None? || newAmount.value == p.payments[i].amount then Ok(p)
    else
      var kind := p.contracts[ContractAt(p.contracts, p.payments[i].contract)].kind;
      var limit := MaxPayment(MoneyOf(Rows(p.contracts, p.payments, Some(id))), kind);
      if newAmount.value > limit then Err(AboveRemaining(limit))
      else Ok(p.(payments := p.payments[i := p.payments[i].(amount := newAmount.value)]))
  }

  function DeletePaymentStep(p: Project, id: PaymentId): Result<Project, Error> {
    var i := PaymentAt(p.payments, id);
    if p.stage.Cancelled? then Err(ProjectCancelled)
    else if i == |p.payments| || ContractAt(p.contracts, p.payments[i].contract) == |p.contracts| then
      Err(PaymentNotFound)
    else Ok(p.(payments := Without(p.payments, i)))
  }

  function Step(p: Project, op: Op): Result<Project, Error> {
    match op
    case AddContract(kind, total, currency) => AddContractStep(p, kind, total, currency)
    case EditContract(id, newTotal, newCurrency) => EditContractStep(p, id, newTotal, newCurrency)
    case DeleteContract(id) => DeleteContractStep(p, id)
    case AddPayment(to, amount) => AddPaymentStep(p, to, amount)
    case EditPayment(id, newAmount) => EditPaymentStep(p, id, newAmount)
    case DeletePayment(id) => DeletePaymentStep(p, id)
    case SetEstimate(lines) =>
      if !ValidLines(lines) then Err(InvalidRequest)
      else if p.stage.Cancelled? then Err(ProjectCancelled)
      else if HasKind(p.contracts, Main) then Err(EstimateLocked)
      else Ok(p.(estimate := Requoted(p.estimate, lines)))
    case ChangeStage(stage, event) =>
      if !Changeable(stage, event) then Err(InvalidRequest)
      else if p.stage.Cancelled? then Err(ProjectCancelled)
      else Ok(p.(stage := stage, event := event))
    case Cancel =>
      if p.stage.Cancelled? then Err(ProjectCancelled)
      else Ok(p.(stage := Cancelled, event := None, beforeCancel := Some(p.stage)))
    case Restore =>
      if !p.stage.Cancelled? then Err(NotCancelled)
      else Ok(p.(stage := if p.beforeCancel.Some? then p.beforeCancel.value else Estimate, beforeCancel := None))
  }

  /** A refused request changes nothing. */
  function After(p: Project, op: Op): Project {
    if Step(p, op).Ok? then Step(p, op).value else p
  }

  function Run(p: Project, ops: seq<Op>): Project
    decreases |ops|
  {
    if ops == [] then p else Run(After(p, ops[0]), ops[1..])
  }

  // ---- the ledger invariant ------------------------------------------------------------------

  /** One contract per kind; ids come from the counter. */
  predicate ContractsShape(contracts: seq<Contract>, next: ContractId) {
    && (forall i :: 0 <= i < |contracts| ==> contracts[i].id < next && ValidCents(contracts[i].total))
    && (forall i, j :: 0 <= i < j < |contracts| ==>
          contracts[i].kind != contracts[j].kind && contracts[i].id != contracts[j].id)
  }

  /** Every payment belongs to a contract of the project. */
  predicate PaymentsShape(contracts: seq<Contract>, payments: seq<Payment>, next: PaymentId) {
    && (forall i :: 0 <= i < |payments| ==>
          payments[i].id < next && payments[i].amount > 0 && HasContract(contracts, payments[i].contract))
    && (forall i, j :: 0 <= i < j < |payments| ==> payments[i].id != payments[j].id)
  }

  predicate Shape(p: Project) {
    && ContractsShape(p.contracts, p.nextContract)
    && PaymentsShape(p.contracts, p.payments, p.nextPayment)
    && (p.stage.Cancelled? <==> p.beforeCancel.Some?)
    && p.beforeCancel != Some(Cancelled)
  }

  function Balance(p: Project): Money {
    MoneyOf(Rows(p.contracts, p.payments, None))
  }

  predicate Inv(p: Project) {
    Shape(p) && Overpaid(Balance(p)).Fine?
  }

  lemma {:induction false} PaidBounds(payments: seq<Payment>, c: ContractId, exclude: Option<PaymentId>)
    requires forall i :: 0 <= i < |payments| ==> payments[i].amount > 0
    ensures 0 <= Paid(payments, c, exclude) <= Paid(payments, c, None)
  {
    if payments != [] {
      PaidBounds(payments[..|payments| - 1], c, exclude);
    }
  }

  lemma {:induction false} PaidNothing(payments: seq<Payment>, c: ContractId)
    requires !HasPayments(payments, c)
    ensures Paid(payments, c, None) == 0
  {
    if payments != [] {
      var init := payments[..|payments| - 1];
      assert forall i :: 0 <= i < |init| ==> init[i] == payments[i];
      PaidNothing(init, c);
    }
  }

  lemma {:induction false} PaidAppend(payments: seq<Payment>, p: Payment, c: ContractId)
    ensures Paid(payments + [p], c, None) == Paid(payments, c, None) + (if p.contract == c then p.amount else 0)
  {
    assert (payments + [p])[..|payments|] == payments;
  }

  /** Replacing or removing a payment starts from the sum that leaves it out. */
  lemma {:induction false} PaidReplace(payments: seq<Payment>, i: nat, p: Payment, c: ContractId)
    requires i < |payments|
    requires forall j, k :: 0 <= j < k < |payments| ==> payments[j].id != payments[k].id
    ensures Paid(payments[i := p], c, None)
         == Paid(payments, c, Some(payments[i].id)) + (if p.contract == c then p.amount else 0)
    ensures Paid(Without(payments, i), c, None) == Paid(payments, c, Some(payments[i].id))
  {
    var n := |payments| - 1;
    var init := payments[..n];
    if i == n {
      assert payments[i := p][..n] == init;
      assert Without(payments, i) == init;
      PaidExcludingAbsent(init, payments[i].id, c);
    } else {
      assert payments[i := p][..n] == init[i := p];
      assert Without(payments, i)[..n - 1] == Without(init, i);
      PaidReplace(init, i, p, c);
    }
  }

  lemma {:induction false} PaidExcludingAbsent(payments: seq<Payment>, id: PaymentId, c: ContractId)
    requires forall k :: 0 <= k < |payments| ==> payments[k].id != id
    ensures Paid(payments, c, Some(id)) == Paid(payments, c, None)
  {
    if payments != [] {
      PaidExcludingAbsent(payments[..|payments| - 1], id, c);
    }
  }

  predicate OnePerKind(rows: seq<Row>) {
    forall i, j :: 0 <= i < j < |rows| ==> rows[i].kind != rows[j].kind
  }

  lemma {:induction false} LastIs(rows: seq<Row>, i: nat)
    requires OnePerKind(rows) && i < |rows|
    ensures LastOfKind(rows, rows[i].kind) == Some(rows[i])
  {
    if i < |rows| - 1 {
      LastIs(rows[..|rows| - 1], i);
    }
  }

  lemma {:induction false} LastIsNone(rows: seq<Row>, kind: Kind)
    ensures LastOfKind(rows, kind).Some? ==>
              LastOfKind(rows, kind).value in rows && LastOfKind(rows, kind).value.kind == kind
    ensures LastOfKind(rows, kind).None? ==> forall r :: r in rows ==> r.kind != kind
  {
    if rows != [] {
      LastIsNone(rows[..|rows| - 1], kind);
    }
  }

  /** Row by row, `a` has the same contract and no more paid than `b`. */
  predicate NoMorePaid(a: seq<Row>, b: seq<Row>) {
    |a| == |b| && forall i :: 0 <= i < |a| ==> 0 <= a[i].paid <= b[i].paid && a[i] == b[i].(paid := a[i].paid)
  }

  lemma {:induction false} LastNoMorePaid(a: seq<Row>, b: seq<Row>, kind: Kind)
    requires NoMorePaid(a, b)
    ensures var x, y := LastOfKind(a, kind), LastOfKind(b, kind);
            x.Some? == y.Some?
            && (x.Some? ==> 0 <= x.value.paid <= y.value.paid && x.value == y.value.(paid := x.value.paid))
  {
    if a != [] {
      LastNoMorePaid(a[..|a| - 1], b[..|b| - 1], kind);
    }
  }

  lemma {:induction false} LessPaidStaysFine(a: seq<Row>, b: seq<Row>)
    requires NoMorePaid(a, b) && Overpaid(MoneyOf(b)).Fine?
    ensures Overpaid(MoneyOf(a)).Fine?
  {
    MoneyIsOfPair(a);
    MoneyIsOfPair(b);
    LastNoMorePaid(a, b, Intro);
    LastNoMorePaid(a, b, Main);
  }

  lemma {:induction false} LastWithout(rows: seq<Row>, i: nat, kind: Kind)
    requires OnePerKind(rows) && i < |rows|
    ensures LastOfKind(Without(rows, i), kind) == if rows[i].kind == kind then None else LastOfKind(rows, kind)
  {
    var n := |rows| - 1;
    if i == n {
      assert Without(rows, i) == rows[..n];
      LastIsNone(rows[..n], kind);
    } else {
      assert Without(rows, i)[..n - 1] == Without(rows[..n], i);
      LastWithout(rows[..n], i, kind);
    }
  }

  lemma {:induction false} DroppedRowStaysFine(rows: seq<Row>, i: nat)
    requires OnePerKind(rows) && i < |rows| && Overpaid(MoneyOf(rows)).Fine?
    requires forall k :: 0 <= k < |rows| ==> rows[k].paid >= 0
    ensures Overpaid(MoneyOf(Without(rows, i))).Fine?
  {
    MoneyIsOfPair(rows);
    MoneyIsOfPair(Without(rows, i));
    LastWithout(rows, i, Intro);
    LastWithout(rows, i, Main);
    LastIsNone(rows, Intro);
    LastIsNone(rows, Main);
  }

  lemma {:induction false} LastUpdate(rows: seq<Row>, i: nat, row: Row, kind: Kind)
    requires OnePerKind(rows) && i < |rows| && row.kind == rows[i].kind
    ensures LastOfKind(rows[i := row], kind) == if row.kind == kind then Some(row) else LastOfKind(rows, kind)
  {
    var n := |rows| - 1;
    if i == n {
      assert rows[i := row][..n] == rows[..n];
    } else {
      assert rows[i := row][..n] == rows[..n][i := row];
      LastUpdate(rows[..n], i, row, kind);
    }
  }

  /** Paying `amount` more on one row is what `Recorded` says. */
  lemma {:induction false} PaidRowRecorded(rows: seq<Row>, i: nat, amount: int)
    requires OnePerKind(rows) && i < |rows|
    ensures MoneyOf(rows[i := rows[i].(paid := rows[i].paid + amount)]) == Recorded(MoneyOf(rows), rows[i].kind, amount)
    ensures Has(MoneyOf(rows), rows[i].kind)
  {
    var row := rows[i].(paid := rows[i].paid + amount);
    MoneyIsOfPair(rows);
    MoneyIsOfPair(rows[i := row]);
    LastUpdate(rows, i, row, Intro);
    LastUpdate(rows, i, row, Main);
    LastIs(rows, i);
  }

  lemma {:induction false} BalanceNonNegative(rows: seq<Row>)
    requires forall k :: 0 <= k < |rows| ==> rows[k].paid >= 0
    ensures MoneyOf(rows).introPaid >= 0 && MoneyOf(rows).mainPaid >= 0
  {
    if rows != [] {
      BalanceNonNegative(rows[..|rows| - 1]);
    }
  }

  lemma {:induction false} RowsFacts(p: Project, exclude: Option<PaymentId>)
    requires Shape(p)
    ensures OnePerKind(Rows(p.contracts, p.payments, exclude))
    ensures NoMorePaid(Rows(p.contracts, p.payments, exclude), Rows(p.contracts, p.payments, None))
  {
    forall i | 0 <= i < |p.contracts|
      ensures 0 <= Paid(p.payments, p.contracts[i].id, exclude) <= Paid(p.payments, p.contracts[i].id, None) {
      PaidBounds(p.payments, p.contracts[i].id, exclude);
    }
  }

  /** Contracts may be added or edited, never taken from under a payment. */
  lemma {:induction false} PaymentsKeepShape(before: seq<Contract>, after: seq<Contract>, payments: seq<Payment>,
                                             next: PaymentId)
    requires PaymentsShape(before, payments, next)
    requires forall i :: 0 <= i < |before| && HasPayments(payments, before[i].id) ==> HasContract(after, before[i].id)
    ensures PaymentsShape(after, payments, next)
  {
    forall i | 0 <= i < |payments| ensures HasContract(after, payments[i].contract) {
      var at :| 0 <= at < |before| && before[at].id == payments[i].contract;
      assert HasPayments(payments, before[at].id);
    }
  }

  lemma {:induction false} ContractsEdited(contracts: seq<Contract>, i: nat, c: Contract, next: ContractId)
    requires ContractsShape(contracts, next) && i < |contracts|
    requires c.id == contracts[i].id && c.kind == contracts[i].kind && ValidCents(c.total)
    ensures ContractsShape(contracts[i := c], next)
    ensures forall k :: 0 <= k < |contracts| ==> HasContract(contracts[i := c], contracts[k].id)
  {
    forall k | 0 <= k < |contracts| ensures HasContract(contracts[i := c], contracts[k].id) {
      assert contracts[i := c][k].id == contracts[k].id;
    }
  }

  lemma {:induction false} ContractsWithout(contracts: seq<Contract>, i: nat, next: ContractId)
    requires ContractsShape(contracts, next) && i < |contracts|
    ensures ContractsShape(Without(contracts, i), next)
    ensures forall k :: 0 <= k < |contracts| && k != i ==> HasContract(Without(contracts, i), contracts[k].id)
  {
    var rest := Without(contracts, i);
    assert forall k :: 0 <= k < |rest| ==> rest[k] == contracts[if k < i then k else k + 1];
    forall k | 0 <= k < |contracts| && k != i ensures HasContract(rest, contracts[k].id) {
      assert rest[if k < i then k else k - 1] == contracts[k];
    }
  }

  lemma {:induction false} PaymentsAdded(contracts: seq<Contract>, payments: seq<Payment>, p: Payment, next: PaymentId)
    requires PaymentsShape(contracts, payments, next)
    requires p.id == next && p.amount > 0 && HasContract(contracts, p.contract)
    ensures PaymentsShape(contracts, payments + [p], next + 1)
  {
  }

  lemma {:induction false} PaymentsEdited(contracts: seq<Contract>, payments: seq<Payment>, i: nat, amount: int,
                                          next: PaymentId)
    requires PaymentsShape(contracts, payments, next) && i < |payments| && amount > 0
    ensures PaymentsShape(contracts, payments[i := payments[i].(amount := amount)], next)
  {
  }

  lemma {:induction false} PaymentsWithout(contracts: seq<Contract>, payments: seq<Payment>, i: nat, next: PaymentId)
    requires PaymentsShape(contracts, payments, next) && i < |payments|
    ensures PaymentsShape(contracts, Without(payments, i), next)
  {
    var rest := Without(payments, i);
    assert forall k :: 0 <= k < |rest| ==> rest[k] == payments[if k < i then k else k + 1];
  }

  // ---- each request keeps it -----------------------------------------------------------------

  lemma {:induction false} AddContractKeeps(p: Project, kind: Kind, total: int, currency: Currency)
    requires Inv(p) && AddContractStep(p, kind, total, currency).Ok?
    ensures Inv(AddContractStep(p, kind, total, currency).value)
  {
    var p' := AddContractStep(p, kind, total, currency).value;
    PaidNothing(p.payments, p.nextContract);
    assert Rows(p'.contracts, p'.payments, None)
        == Rows(p.contracts, p.payments, None) + [Row(p.nextContract, kind, total, currency, 0)];
    forall i | 0 <= i < |p.contracts| ensures HasContract(p'.contracts, p.contracts[i].id) {
      assert p'.contracts[i] == p.contracts[i];
    }
    PaymentsKeepShape(p.contracts, p'.contracts, p.payments, p.nextPayment);
  }

  lemma {:induction false} EditContractKeeps(p: Project, id: ContractId, newTotal: Option<int>,
                                             newCurrency: Option<Currency>)
    requires Inv(p) && EditContractStep(p, id, newTotal, newCurrency).Ok?
    ensures Inv(EditContractStep(p, id, newTotal, newCurrency).value)
  {
    var i := ContractAt(p.contracts, id);
    var c := Edited(p.contracts[i], newTotal, newCurrency);
    ContractsEdited(p.contracts, i, c, p.nextContract);
    PaymentsKeepShape(p.contracts, p.contracts[i := c], p.payments, p.nextPayment);
  }

  lemma {:induction false} DeleteContractKeeps(p: Project, id: ContractId)
    requires Inv(p) && DeleteContractStep(p, id).Ok?
    ensures Inv(DeleteContractStep(p, id).value)
  {
    var i := ContractAt(p.contracts, id);
    ContractsWithout(p.contracts, i, p.nextContract);
    PaymentsKeepShape(p.contracts, Without(p.contracts, i), p.payments, p.nextPayment);
    RowsFacts(p, None);
    DroppedRowStaysFine(Rows(p.contracts, p.payments, None), i);
    RowsWithout(p.contracts, p.payments, i);
  }

  lemma {:induction false} RowsWithout(contracts: seq<Contract>, payments: seq<Payment>, i: nat)
    requires i < |contracts|
    ensures Rows(Without(contracts, i), payments, None) == Without(Rows(contracts, payments, None), i)
  {
  }

  /**
   Payments that put `amount` more on contract `i` than the rows say leave a balance exactly when within the
   limit.
   */
  lemma {:induction false} PayExact(contracts: seq<Contract>, rows: seq<Row>, payments: seq<Payment>, i: nat,
                                    amount: int)
    requires |rows| == |contracts| && i < |rows| && OnePerKind(rows) && amount > 0
    requires forall k :: 0 <= k < |rows| ==> rows[k].paid >= 0
    requires forall k :: 0 <= k < |rows| ==>
               RowOf(contracts[k], payments, None) == rows[k].(paid := rows[k].paid + (if k == i then amount else 0))
    requires Overpaid(MoneyOf(rows)).Fine?
    ensures amount <= MaxPayment(MoneyOf(rows), rows[i].kind)
       <==> Overpaid(MoneyOf(Rows(contracts, payments, None))).Fine?
  {
    assert Rows(contracts, payments, None) == rows[i := rows[i].(paid := rows[i].paid + amount)];
    PaidRowRecorded(rows, i, amount);
    BalanceNonNegative(rows);
    MaxPaymentIsExact(MoneyOf(rows), rows[i].kind, amount);
  }

  lemma {:induction false} RowsPaid(contracts: seq<Contract>, payments: seq<Payment>, p: Payment, i: nat)
    requires i < |contracts| && contracts[i].id == p.contract
    requires forall j, k :: 0 <= j < k < |contracts| ==> contracts[j].id != contracts[k].id
    ensures var rows := Rows(contracts, payments, None);
            forall k :: 0 <= k < |rows| ==>
              RowOf(contracts[k], payments + [p], None)
              == rows[k].(paid := rows[k].paid + (if k == i then p.amount else 0))
  {
    forall k | 0 <= k < |contracts| {
      PaidAppend(payments, p, contracts[k].id);
    }
  }

  /** A new payment fits the limit exactly when the ledger with it is balanced. */
  lemma {:induction false} NewPaymentExact(p: Project, i: nat, amount: int)
    requires Inv(p) && i < |p.contracts| && amount > 0
    ensures var added := Payment(p.nextPayment, p.contracts[i].id, amount);
            amount <= MaxPayment(Balance(p), p.contracts[i].kind)
            <==> Overpaid(Balance(p.(payments := p.payments + [added]))).Fine?
  {
    var added := Payment(p.nextPayment, p.contracts[i].id, amount);
    RowsFacts(p, None);
    RowsPaid(p.contracts, p.payments, added, i);
    PayExact(p.contracts, Rows(p.contracts, p.payments, None), p.payments + [added], i, amount);
  }

  /** A changed payment fits the limit of the ledger without it exactly when the ledger with the change is balanced. */
  lemma {:induction false} ChangedPaymentExact(p: Project, at: nat, i: nat, amount: int)
    requires Inv(p) && at < |p.payments| && i < |p.contracts| && amount > 0
    requires p.contracts[i].id == p.payments[at].contract
    ensures var without := MoneyOf(Rows(p.contracts, p.payments, Some(p.payments[at].id)));
            var edited := p.payments[at := p.payments[at].(amount := amount)];
            amount <= MaxPayment(without, p.contracts[i].kind)
            <==> Overpaid(Balance(p.(payments := edited))).Fine?
  {
    var id := p.payments[at].id;
    var rows := Rows(p.contracts, p.payments, Some(id));
    RowsFacts(p, Some(id));
    LessPaidStaysFine(rows, Rows(p.contracts, p.payments, None));
    RowsEdited(p.contracts, p.payments, at, amount, i);
    PayExact(p.contracts, rows, p.payments[at := p.payments[at].(amount := amount)], i, amount);
  }

  lemma {:induction false} AddPaymentKeeps(p: Project, to: Option<ContractId>, amount: int)
    requires Inv(p) && AddPaymentStep(p, to, amount).Ok?
    ensures Inv(AddPaymentStep(p, to, amount).value)
  {
    var rows := Rows(p.contracts, p.payments, None);
    PickIsARow(rows, to);
    var i :| 0 <= i < |rows| && rows[i] == PickSpec(rows, to).value;
    NewPaymentExact(p, i, amount);
    PaymentsAdded(p.contracts, p.payments, Payment(p.nextPayment, p.contracts[i].id, amount), p.nextPayment);
  }

  lemma {:induction false} EditPaymentKeeps(p: Project, id: PaymentId, newAmount: Option<int>)
    requires Inv(p) && EditPaymentStep(p, id, newAmount).Ok?
    ensures Inv(EditPaymentStep(p, id, newAmount).value)
  {
    if EditPaymentStep(p, id, newAmount).value != p {
      var at := PaymentAt(p.payments, id);
      ChangedPaymentExact(p, at, ContractAt(p.contracts, p.payments[at].contract), newAmount.value);
      PaymentsEdited(p.contracts, p.payments, at, newAmount.value, p.nextPayment);
    }
  }

  lemma {:induction false} RowsEdited(contracts: seq<Contract>, payments: seq<Payment>, at: nat, amount: int, i: nat)
    requires at < |payments| && i < |contracts| && contracts[i].id == payments[at].contract
    requires forall j, k :: 0 <= j < k < |payments| ==> payments[j].id != payments[k].id
    requires forall j, k :: 0 <= j < k < |contracts| ==> contracts[j].id != contracts[k].id
    ensures var rows := Rows(contracts, payments, Some(payments[at].id));
            var edited := payments[at := payments[at].(amount := amount)];
            forall k :: 0 <= k < |rows| ==>
              RowOf(contracts[k], edited, None) == rows[k].(paid := rows[k].paid + (if k == i then amount else 0))
  {
    forall k | 0 <= k < |contracts| {
      PaidReplace(payments, at, payments[at].(amount := amount), contracts[k].id);
    }
  }

  lemma {:induction false} DeletePaymentKeeps(p: Project, id: PaymentId)
    requires Inv(p) && DeletePaymentStep(p, id).Ok?
    ensures Inv(DeletePaymentStep(p, id).value)
  {
    var at := PaymentAt(p.payments, id);
    var rows := Rows(p.contracts, p.payments, Some(id));
    RowsFacts(p, Some(id));
    LessPaidStaysFine(rows, Rows(p.contracts, p.payments, None));
    RowsDropped(p.contracts, p.payments, at);
    PaymentsWithout(p.contracts, p.payments, at, p.nextPayment);
  }

  lemma {:induction false} RowsDropped(contracts: seq<Contract>, payments: seq<Payment>, at: nat)
    requires at < |payments|
    requires forall j, k :: 0 <= j < k < |payments| ==> payments[j].id != payments[k].id
    ensures Rows(contracts, Without(payments, at), None) == Rows(contracts, payments, Some(payments[at].id))
  {
    var dropped := Rows(contracts, Without(payments, at), None);
    forall k | 0 <= k < |contracts| ensures dropped[k] == Rows(contracts, payments, Some(payments[at].id))[k] {
      PaidReplace(payments, at, payments[at], contracts[k].id);
    }
  }

  lemma {:induction false} StepKeepsInv(p: Project, op: Op)
    requires Inv(p)
    ensures Inv(After(p, op))
  {
    if Step(p, op).Ok? {
      match op
      case AddContract(kind, total, currency) => AddContractKeeps(p, kind, total, currency);
      case EditContract(id, newTotal, newCurrency) => EditContractKeeps(p, id, newTotal, newCurrency);
      case DeleteContract(id) => DeleteContractKeeps(p, id);
      case AddPayment(to, amount) => AddPaymentKeeps(p, to, amount);
      case EditPayment(id, newAmount) => EditPaymentKeeps(p, id, newAmount);
      case DeletePayment(id) => DeletePaymentKeeps(p, id);
      case _ =>
    }
  }

  lemma {:induction false} RunKeepsInv(p: Project, ops: seq<Op>)
    requires Inv(p)
    ensures Inv(Run(p, ops))
    decreases |ops|
  {
    if ops != [] {
      StepKeepsInv(p, ops[0]);
      RunKeepsInv(After(p, ops[0]), ops[1..]);
    }
  }

  // ---- what it means for every run from a new project ----------------------------------------

  /** What is paid on the intro contract counts for a main contract of the same currency. */
  predicate CreditedTo(intro: Contract, main: Contract) {
    intro.kind.Intro? && main.kind.Main? && intro.currency == main.currency
  }

  /** The balance rules in plain terms, for whatever was added, edited and deleted before. */
  lemma {:induction false} LedgerIsBalanced(ops: seq<Op>)
    ensures var p := Run(NEW_PROJECT, ops);
            var cs := p.contracts;
            && (forall i, j :: 0 <= i < j < |cs| ==> cs[i].kind != cs[j].kind)
            && (forall i :: 0 <= i < |cs| ==> 0 <= Paid(p.payments, cs[i].id, None) <= cs[i].total)
            && (forall i, j :: 0 <= i < |cs| && 0 <= j < |cs| && CreditedTo(cs[i], cs[j]) ==>
                  Paid(p.payments, cs[j].id, None) + Paid(p.payments, cs[i].id, None) <= cs[j].total)
            && (forall i :: 0 <= i < |p.payments| ==> HasContract(cs, p.payments[i].contract))
  {
    RunKeepsInv(NEW_PROJECT, ops);
    InvMeansBalanced(Run(NEW_PROJECT, ops));
  }

  lemma {:induction false} InvMeansBalanced(p: Project)
    requires Inv(p)
    ensures var cs := p.contracts;
            && (forall i :: 0 <= i < |cs| ==> 0 <= Paid(p.payments, cs[i].id, None) <= cs[i].total)
            && (forall i, j :: 0 <= i < |cs| && 0 <= j < |cs| && CreditedTo(cs[i], cs[j]) ==>
                  Paid(p.payments, cs[j].id, None) + Paid(p.payments, cs[i].id, None) <= cs[j].total)
  {
    var rows := Rows(p.contracts, p.payments, None);
    RowsFacts(p, None);
    BalanceNonNegative(rows);
    forall i | 0 <= i < |rows| ensures Reads(MoneyOf(rows), rows[i]) {
      MoneyReadsRow(rows, i);
    }
  }

  /**
   On a project that is not cancelled, a payment on one of its contracts is accepted exactly when the result
   balances.
   */
  lemma {:induction false} PaymentAcceptedIff(p: Project, i: nat, amount: int)
    requires Inv(p) && !p.stage.Cancelled? && i < |p.contracts| && ValidCents(amount)
    ensures var added := Payment(p.nextPayment, p.contracts[i].id, amount);
            AddPaymentStep(p, Some(p.contracts[i].id), amount).Ok?
            <==> Overpaid(Balance(p.(payments := p.payments + [added]))).Fine?
  {
    var rows := Rows(p.contracts, p.payments, None);
    FirstWithIs(rows, p.contracts[i].id, i);
    NewPaymentExact(p, i, amount);
  }

  /** The same for changing the amount of a recorded payment. */
  lemma {:induction false} PaymentEditAcceptedIff(p: Project, at: nat, amount: int)
    requires Inv(p) && !p.stage.Cancelled? && at < |p.payments| && ValidCents(amount)
    ensures var edited := p.payments[at := p.payments[at].(amount := amount)];
            EditPaymentStep(p, p.payments[at].id, Some(amount)).Ok?
            <==> Overpaid(Balance(p.(payments := edited))).Fine?
  {
    var i := ContractAt(p.contracts, p.payments[at].contract);
    assert PaymentAt(p.payments, p.payments[at].id) == at;
    ChangedPaymentExact(p, at, i, amount);
    if amount == p.payments[at].amount {
      assert p.payments[at := p.payments[at].(amount := amount)] == p.payments;
    }
  }

  /** Every sum the rules form stays far inside 64 bits, so the original's arithmetic cannot wrap. */
  lemma {:induction false} SumsFit(p: Project, newTotal: int)
    requires Inv(p) && ValidCents(newTotal)
    ensures var m := Balance(p);
            && 0 <= m.introPaid + m.mainPaid <= 2 * MAX_CENTS <= INT64_MAX
            && -INT64_MAX <= newTotal - m.mainPaid - m.introPaid <= INT64_MAX
            && 0 <= m.introTotal <= MAX_CENTS && 0 <= m.mainTotal <= MAX_CENTS
  {
    var rows := Rows(p.contracts, p.payments, None);
    RowsFacts(p, None);
    BalanceNonNegative(rows);
    TotalsFit(rows);
    if !Balance(p).hasIntro { NoneOfKindPaid(rows, Intro); }
    if !Balance(p).hasMain { NoneOfKindPaid(rows, Main); }
  }

  lemma {:induction false} TotalsFit(rows: seq<Row>)
    requires forall k :: 0 <= k < |rows| ==> ValidCents(rows[k].total)
    ensures 0 <= MoneyOf(rows).introTotal <= MAX_CENTS && 0 <= MoneyOf(rows).mainTotal <= MAX_CENTS
  {
    if rows != [] {
      TotalsFit(rows[..|rows| - 1]);
    }
  }

  lemma {:induction false} NoneOfKindPaid(rows: seq<Row>, kind: Kind)
    requires !Has(MoneyOf(rows), kind)
    ensures if kind.Intro? then MoneyOf(rows).introPaid == 0 else MoneyOf(rows).mainPaid == 0
  {
    MoneyIsOfPair(rows);
    LastIsNone(rows, kind);
  }

  // ---- the pipeline stage --------------------------------------------------------------------

  /** Adding a contract moves the stage forward to the contract's stage or leaves it. */
  lemma {:induction false} ContractMovesForward(p: Project, kind: Kind, total: int, currency: Currency)
    requires AddContractStep(p, kind, total, currency).Ok?
    ensures var q := AddContractStep(p, kind, total, currency).value;
            StageIndex(q.stage) == Max(StageIndex(p.stage), StageIndex(ContractStage(kind)))
  {
  }

  predicate Reaches(p: Project, stage: Stage) {
    p.stage == stage || p.beforeCancel == Some(stage)
  }

  predicate Accepted(p: Project, op: Op) {
    Step(p, op).Ok?
  }

  lemma {:induction false} OnlyAddingReaches(p: Project, op: Op, kind: Kind)
    requires !Reaches(p, ContractStage(kind)) && Reaches(After(p, op), ContractStage(kind))
    ensures op.AddContract? && op.kind == kind && Accepted(p, op)
  {
  }

  /** A contract stage is only ever reached by adding that contract, through any cancels and restores. */
  lemma {:induction false} ContractStageNeedsContract(p: Project, ops: seq<Op>, kind: Kind)
    requires !Reaches(p, ContractStage(kind)) && Reaches(Run(p, ops), ContractStage(kind))
    ensures exists at :: 0 <= at < |ops| && ops[at].AddContract? && ops[at].kind == kind
                         && Accepted(Run(p, ops[..at]), ops[at])
    decreases |ops|
  {
    var next := After(p, ops[0]);
    if Reaches(next, ContractStage(kind)) {
      OnlyAddingReaches(p, ops[0], kind);
      assert Accepted(Run(p, ops[..0]), ops[0]);
    } else {
      ContractStageNeedsContract(next, ops[1..], kind);
      var i :| 0 <= i < |ops| - 1 && ops[1..][i].AddContract? && ops[1..][i].kind == kind
               && Accepted(Run(next, ops[1..][..i]), ops[1..][i]);
      assert ops[..i + 1][1..] == ops[1..][..i];
      assert Accepted(Run(p, ops[..i + 1]), ops[i + 1]);
    }
  }

  /** Cancelling freezes the project: whatever is asked meanwhile, restoring gives it back, without the planned date. */
  lemma {:induction false} CancelThenRestore(p: Project, ops: seq<Op>)
    requires Inv(p) && !p.stage.Cancelled?
    requires forall i :: 0 <= i < |ops| ==> !ops[i].Restore?
    ensures Run(p, [Cancel] + ops + [Restore]) == p.(event := None)
  {
    var cancelled := After(p, Cancel);
    FrozenWhileCancelled(cancelled, ops);
    RunAppend(p, [Cancel], ops + [Restore]);
    RunAppend(cancelled, ops, [Restore]);
    assert [Cancel] + ops + [Restore] == [Cancel] + (ops + [Restore]);
    assert Run(p, [Cancel]) == cancelled;
    assert Run(cancelled, [Restore]) == After(cancelled, Restore);
  }

  lemma {:induction false} FrozenWhileCancelled(p: Project, ops: seq<Op>)
    requires p.stage.Cancelled? && forall i :: 0 <= i < |ops| ==> !ops[i].Restore?
    ensures Run(p, ops) == p
    decreases |ops|
  {
    if ops != [] {
      assert After(p, ops[0]) == p;
      FrozenWhileCancelled(p, ops[1..]);
    }
  }

  lemma {:induction false} RunAppend(p: Project, a: seq<Op>, b: seq<Op>)
    ensures Run(p, a + b) == Run(Run(p, a), b)
    decreases |a|
  {
    if a == [] {
      assert a + b == b;
    } else {
      assert (a + b)[1..] == a[1..] + b;
      RunAppend(After(p, a[0]), a[1..], b);
    }
  }

  /** Once the main contract exists the estimate stays as it is until a contract is deleted. */
  lemma {:induction false} EstimateIsFrozen(p: Project, ops: seq<Op>)
    requires HasKind(p.contracts, Main)
    requires forall i :: 0 <= i < |ops| ==> !ops[i].DeleteContract?
    ensures HasKind(Run(p, ops).contracts, Main) && Run(p, ops).estimate == p.estimate
    decreases |ops|
  {
    if ops != [] {
      MainStays(p, ops[0]);
      EstimateIsFrozen(After(p, ops[0]), ops[1..]);
    }
  }

  lemma {:induction false} MainStays(p: Project, op: Op)
    requires HasKind(p.contracts, Main) && !op.DeleteContract?
    ensures HasKind(After(p, op).contracts, Main) && After(p, op).estimate == p.estimate
  {
    var i :| 0 <= i < |p.contracts| && p.contracts[i].kind == Main;
    assert i < |After(p, op).contracts| && After(p, op).contracts[i].kind == Main;
  }
}
