/**
 What the requests of the ledger do, in terms of the stored rows alone: which are accepted, what they write, and the
 book of payments that any run of them keeps (internal/crmapi/projects_mutations.go, projects_pipeline.go).
 */
module LedgerBook {
  import opened Prelude
  import opened Ledger

  /** The money recorded on a contract. */
  function Sum(payments: seq<Payment>, contract: ContractId): int {
    if payments == [] then 0
    else (if payments[0].contract == contract then payments[0].amount else 0) + Sum(payments[1..], contract)
  }

  lemma {:induction false} SumAppend(a: seq<Payment>, b: seq<Payment>, contract: ContractId)
    ensures Sum(a + b, contract) == Sum(a, contract) + Sum(b, contract)
  {
    if a == [] {
      assert a + b == b;
    } else {
      assert (a + b)[1..] == a[1..] + b;
      SumAppend(a[1..], b, contract);
    }
  }

  lemma {:induction false} SumOne(p: Payment, contract: ContractId)
    ensures Sum([p], contract) == if p.contract == contract then p.amount else 0
  {
    assert [p][1..] == [];
  }

  lemma {:induction false} PaidIsSum(payments: seq<Payment>, contract: ContractId)
    ensures Paid(payments, contract, None) == Sum(payments, contract)
  {
    if payments != [] {
      var init, last := payments[..|payments| - 1], payments[|payments| - 1];
      PaidIsSum(init, contract);
      SumAppend(init, [last], contract);
      SumOne(last, contract);
      assert init + [last] == payments;
    }
  }

  lemma {:induction false} SumAt(payments: seq<Payment>, i: nat, contract: ContractId)
    requires i < |payments|
    ensures Sum(payments, contract) == Sum(payments[..i], contract) + Sum([payments[i]], contract)
                                       + Sum(payments[i + 1..], contract)
  {
    assert payments == payments[..i] + [payments[i]] + payments[i + 1..];
    SumAppend(payments[..i] + [payments[i]], payments[i + 1..], contract);
    SumAppend(payments[..i], [payments[i]], contract);
  }

  // ---- balanced in plain sums ----------------------------------------------------------------

  /**
   No contract is paid above its total, and the main contract not above its total either when the intro contract of
   the same currency counts for it.
   */
  ghost predicate Balanced(contracts: seq<Contract>, payments: seq<Payment>) {
    && (forall i :: 0 <= i < |contracts| ==> Sum(payments, contracts[i].id) <= contracts[i].total)
    && (forall i, j :: 0 <= i < |contracts| && 0 <= j < |contracts| && contracts[i].kind == Intro
                       && contracts[j].kind == Main && contracts[i].currency == contracts[j].currency ==>
          Sum(payments, contracts[j].id) + Sum(payments, contracts[i].id) <= contracts[j].total)
  }

  predicate Positive(payments: seq<Payment>) {
    forall i :: 0 <= i < |payments| ==> payments[i].amount > 0
  }

  /** The check of the balance refuses exactly what is not balanced. */
  lemma {:induction false} FineIff(contracts: seq<Contract>, payments: seq<Payment>)
    requires forall i, j :: 0 <= i < j < |contracts| ==> contracts[i].kind != contracts[j].kind
    requires Positive(payments)
    ensures Overpaid(MoneyOf(Rows(contracts, payments, None))).Fine? <==> Balanced(contracts, payments)
  {
    var rows := Rows(contracts, payments, None);
    var m := MoneyOf(rows);
    forall i | 0 <= i < |rows| ensures Reads(m, rows[i]) && rows[i].paid == Sum(payments, contracts[i].id) >= 0 {
      MoneyReadsRow(rows, i);
      PaidIsSum(payments, contracts[i].id);
      PaidBounds(payments, contracts[i].id, None);
    }
    RowOfKind(rows, Intro);
    RowOfKind(rows, Main);
  }

  /** And what it names is the sum that is too much: that of the intro contract, or all that counts for the main one. */
  lemma {:induction false} OverpaidNames(contracts: seq<Contract>, payments: seq<Payment>, i: nat)
    requires forall i, j :: 0 <= i < j < |contracts| ==> contracts[i].kind != contracts[j].kind
    requires i < |contracts|
    ensures var over := Overpaid(MoneyOf(Rows(contracts, payments, None)));
            var sum := Sum(payments, contracts[i].id);
            && (contracts[i].kind == Intro ==>
                  if sum > contracts[i].total then over == IntroOver(sum) else !over.IntroOver?)
            && (contracts[i].kind == Main && over.MainOver? ==>
                  if j: nat :| j < |contracts| && contracts[j].kind == Intro
                               && contracts[j].currency == contracts[i].currency
                  then over.paid == sum + Sum(payments, contracts[j].id) > contracts[i].total
                  else over.paid == sum > contracts[i].total)
  {
    var rows := Rows(contracts, payments, None);
    var m := MoneyOf(rows);
    forall k | 0 <= k < |rows| ensures Reads(m, rows[k]) && rows[k].paid == Sum(payments, contracts[k].id) {
      MoneyReadsRow(rows, k);
      PaidIsSum(payments, contracts[k].id);
    }
    RowOfKind(rows, Intro);
  }

  lemma {:induction false} RowOfKind(rows: seq<Row>, kind: Kind)
    ensures Has(MoneyOf(rows), kind) ==> exists i :: 0 <= i < |rows| && rows[i].kind == kind
  {
    MoneyIsOfPair(rows);
    LastIsNone(rows, kind);
  }

  // ---- refusals ------------------------------------------------------------------------------

  /** What is wrong with the request comes first, then that the project is cancelled, then what is missing or taken. */
  lemma {:induction false} AddContractRefusals(p: Project, kind: Kind, total: int, currency: Currency)
    ensures var r := Step(p, AddContract(kind, total, currency));
            && (r == Err(InvalidRequest) <==> !Cents(total) || currency == Unset)
            && (r == Err(ProjectCancelled) <==> Cents(total) && currency != Unset && p.stage == Cancelled)
            && (r == Err(ContractExists) <==>
                  && Cents(total) && currency != Unset && p.stage != Cancelled
                  && exists i :: 0 <= i < |p.contracts| && p.contracts[i].kind == kind)
            && (r.Err? ==> r.error in {InvalidRequest, ProjectCancelled, ContractExists} || r.error.TotalBelowPaid?)
  {
  }

  lemma {:induction false} EditContractRefusals(p: Project, id: ContractId, newTotal: Option<int>,
                                                newCurrency: Option<Currency>)
    ensures var r := Step(p, EditContract(id, newTotal, newCurrency));
            var valid := (newTotal.Some? ==> Cents(newTotal.value)) && newCurrency != Some(Unset);
            && (r == Err(InvalidRequest) <==> !valid)
            && (r == Err(ProjectCancelled) <==> valid && p.stage == Cancelled)
            && (r == Err(ContractNotFound) <==>
                  valid && p.stage != Cancelled && forall i :: 0 <= i < |p.contracts| ==> p.contracts[i].id != id)
            && (r.Err? ==> r.error in {InvalidRequest, ProjectCancelled, ContractNotFound, CurrencyLocked}
                           || r.error.TotalBelowPaid?)
  {
  }

  lemma {:induction false} DeleteRefusals(p: Project, contract: ContractId, payment: PaymentId)
    requires Inv(p)
    ensures var r := Step(p, DeleteContract(contract));
            && (r == Err(ProjectCancelled) <==> p.stage == Cancelled)
            && (r == Err(ContractNotFound) <==>
                  p.stage != Cancelled && forall i :: 0 <= i < |p.contracts| ==> p.contracts[i].id != contract)
            && (r.Err? ==> r.error in {ProjectCancelled, ContractNotFound, ContractHasPayments})
    ensures var r := Step(p, DeletePayment(payment));
            && (r == Err(ProjectCancelled) <==> p.stage == Cancelled)
            && (r == Err(PaymentNotFound) <==>
                  p.stage != Cancelled && forall i :: 0 <= i < |p.payments| ==> p.payments[i].id != payment)
  {
  }

  lemma {:induction false} AddPaymentRefusals(p: Project, to: Option<ContractId>, amount: int)
    ensures var r := Step(p, AddPayment(to, amount));
            && (r == Err(InvalidRequest) <==> !Cents(amount))
            && (r == Err(ProjectCancelled) <==> Cents(amount) && p.stage == Cancelled)
            && (r == Err(ContractNotFound) <==>
                  && Cents(amount) && p.stage != Cancelled && to.Some?
                  && forall i :: 0 <= i < |p.contracts| ==> p.contracts[i].id != to.value)
            && (r == Err(ContractRequired) <==>
                  Cents(amount) && p.stage != Cancelled && to == None && p.contracts == [])
            && (r.Err? ==> r.error in {InvalidRequest, ProjectCancelled, ContractNotFound, ContractRequired}
                           || r.error.AboveRemaining?)
  {
    PickFound(p.contracts, p.payments, to);
  }

  lemma {:induction false} PickFound(contracts: seq<Contract>, payments: seq<Payment>, to: Option<ContractId>)
    ensures PickSpec(Rows(contracts, payments, None), to).None?
       <==> if to.Some? then forall i :: 0 <= i < |contracts| ==> contracts[i].id != to.value else contracts == []
  {
    var rows := Rows(contracts, payments, None);
    PickIsARow(rows, to);
    PickIsOfKind(rows, to);
    if PickSpec(rows, to).Some? {
      var i :| 0 <= i < |rows| && rows[i] == PickSpec(rows, to).value;
      assert rows[i].id == contracts[i].id;
    } else {
      forall i | 0 <= i < |rows| ensures rows[i] in rows && rows[i].id == contracts[i].id {
      }
    }
  }

  lemma {:induction false} EditPaymentRefusals(p: Project, id: PaymentId, newAmount: Option<int>)
    requires Inv(p)
    ensures var r := Step(p, EditPayment(id, newAmount));
            var valid := newAmount.Some? ==> Cents(newAmount.value);
            && (r == Err(InvalidRequest) <==> !valid)
            && (r == Err(ProjectCancelled) <==> valid && p.stage == Cancelled)
            && (r == Err(PaymentNotFound) <==>
                  valid && p.stage != Cancelled && forall i :: 0 <= i < |p.payments| ==> p.payments[i].id != id)
            && (r.Err? ==> r.error in {InvalidRequest, ProjectCancelled, PaymentNotFound} || r.error.AboveRemaining?)
  {
  }

  lemma {:induction false} OtherRefusals(p: Project, lines: map<Line, Option<Quote>>, stage: Stage, event: Option<Date>)
    ensures var r := Step(p, SetEstimate(lines));
            && (r == Err(ProjectCancelled) ==> p.stage == Cancelled)
            && (r == Err(EstimateLocked) ==> p.stage != Cancelled && HasKind(p.contracts, Main))
            && (r.Err? && p.stage != Cancelled && !HasKind(p.contracts, Main) ==> r.error == InvalidRequest)
    ensures var r := Step(p, ChangeStage(stage, event));
            && (r.Err? ==> r.error in {InvalidRequest, ProjectCancelled})
            && (r == Err(InvalidRequest) <==> || stage in {IntroContract, MainContract, Cancelled}
                                              || (stage == Completed && event != None)
                                              || (stage == Measure && event == None))
  {
  }

  // ---- contracts -----------------------------------------------------------------------------

  predicate IsContract(contracts: seq<Contract>, i: nat, id: ContractId) {
    i < |contracts| && contracts[i].id == id
  }

  predicate IsPayment(payments: seq<Payment>, i: nat, id: PaymentId) {
    i < |payments| && payments[i].id == id
  }

  predicate Cents(amount: int) {
    1 <= amount <= 100_000_000_000
  }

  /** The stage a project is in after signing: an intro contract moves an estimate on, a main one all before it. */
  function SignedStage(stage: Stage, kind: Kind): Stage {
    if kind == Intro then (if stage == Estimate then IntroContract else stage)
    else if stage in {Estimate, IntroContract, Measure, Design} then MainContract
    else stage
  }

  /** A contract is added when there is none of its kind and the ledger with it is balanced. */
  lemma {:induction false} AddContractIs(p: Project, kind: Kind, total: int, currency: Currency)
    requires Inv(p)
    ensures var r := Step(p, AddContract(kind, total, currency));
            var contracts := p.contracts + [Contract(p.nextContract, kind, total, currency)];
            var stage := SignedStage(p.stage, kind);
            && (r.Ok? <==> && Cents(total) && currency != Unset && p.stage != Cancelled
                           && (forall i :: 0 <= i < |p.contracts| ==> p.contracts[i].kind != kind)
                           && Balanced(contracts, p.payments))
            && (r.Ok? ==> r.value == p.(contracts := contracts, nextContract := p.nextContract + 1, stage := stage,
                                        event := if stage == p.stage then p.event else None))
            && (forall i :: 0 <= i < |p.contracts| ==> p.contracts[i].id != p.nextContract)
  {
    AddChecks(p, Contract(p.nextContract, kind, total, currency));
  }

  lemma {:induction false} AddChecks(p: Project, c: Contract)
    requires Inv(p) && c.id == p.nextContract
    ensures Rows(p.contracts + [c], p.payments, None)
         == Rows(p.contracts, p.payments, None) + [Row(c.id, c.kind, c.total, c.currency, 0)]
    ensures !HasKind(p.contracts, c.kind) ==>
              (Overpaid(MoneyOf(Rows(p.contracts + [c], p.payments, None))).Fine?
               <==> Balanced(p.contracts + [c], p.payments))
  {
    PaidNothing(p.payments, c.id);
    if !HasKind(p.contracts, c.kind) {
      FineIff(p.contracts + [c], p.payments);
    }
  }

  /** What the patch asks for, field by field. */
  function Patched(c: Contract, newTotal: Option<int>, newCurrency: Option<Currency>): Contract {
    Contract(c.id, c.kind, if newTotal == None then c.total else newTotal.value,
             if newCurrency == None then c.currency else newCurrency.value)
  }

  /** A contract is changed when the ledger with the change is balanced, its currency only while nothing is paid. */
  lemma {:induction false} EditContractIs(p: Project, id: ContractId, newTotal: Option<int>,
                                          newCurrency: Option<Currency>, i: nat)
    requires Inv(p) && IsContract(p.contracts, i, id)
    ensures var r := Step(p, EditContract(id, newTotal, newCurrency));
            var c := Patched(p.contracts[i], newTotal, newCurrency);
            && (r.Ok? <==> && (newTotal.Some? ==> Cents(newTotal.value)) && newCurrency != Some(Unset)
                           && p.stage != Cancelled
                           && (c.currency == p.contracts[i].currency || Sum(p.payments, id) == 0)
                           && Balanced(p.contracts[i := c], p.payments))
            && (r.Ok? ==> r.value == p.(contracts := p.contracts[i := c]))
  {
    EditChecks(p, i, Patched(p.contracts[i], newTotal, newCurrency));
    assert ContractAt(p.contracts, id) == i;
  }

  lemma {:induction false} EditChecks(p: Project, i: nat, c: Contract)
    requires Inv(p) && i < |p.contracts| && c.kind == p.contracts[i].kind
    ensures Overpaid(MoneyOf(Rows(p.contracts[i := c], p.payments, None))).Fine?
       <==> Balanced(p.contracts[i := c], p.payments)
    ensures Paid(p.payments, p.contracts[i].id, None) > 0 <==> Sum(p.payments, p.contracts[i].id) != 0
  {
    PaidIsSum(p.payments, p.contracts[i].id);
    PaidBounds(p.payments, p.contracts[i].id, None);
    FineIff(p.contracts[i := c], p.payments);
  }

  /** A contract is deleted when nothing is recorded on it. */
  lemma {:induction false} DeleteContractIs(p: Project, id: ContractId, i: nat)
    requires Inv(p) && IsContract(p.contracts, i, id)
    ensures var r := Step(p, DeleteContract(id));
            && (r.Ok? <==> p.stage != Cancelled
                           && forall k :: 0 <= k < |p.payments| ==> p.payments[k].contract != id)
            && (r.Ok? ==> r.value == p.(contracts := p.contracts[..i] + p.contracts[i + 1..]))
  {
  }

  lemma {:induction false} UnknownIsRefused(p: Project, id: nat, total: Option<int>, currency: Option<Currency>)
    requires forall i :: 0 <= i < |p.contracts| ==> p.contracts[i].id != id
    ensures !Step(p, EditContract(id, total, currency)).Ok? && !Step(p, DeleteContract(id)).Ok?
  {
  }

  // ---- payments ------------------------------------------------------------------------------

  /** The contract a payment is recorded on: the given one, else the main one, else the intro one. */
  predicate IsTarget(contracts: seq<Contract>, to: Option<ContractId>, i: nat) {
    i < |contracts| &&
    if to.Some? then contracts[i].id == to.value
    else contracts[i].kind == Main || forall k :: 0 <= k < |contracts| ==> contracts[k].kind == Intro
  }

  lemma {:induction false} PickIsTarget(p: Project, to: Option<ContractId>, i: nat)
    requires Shape(p) && IsTarget(p.contracts, to, i)
    ensures PickSpec(Rows(p.contracts, p.payments, None), to) == Some(Rows(p.contracts, p.payments, None)[i])
  {
    var rows := Rows(p.contracts, p.payments, None);
    RowsFacts(p, None);
    if to.Some? {
      FirstWithIs(rows, to.value, i);
    } else {
      LastIs(rows, i);
      LastIsNone(rows, Main);
    }
  }

  /** A payment is recorded when its contract exists and the ledger with it is balanced, and nothing else changes. */
  lemma {:induction false} AddPaymentIs(p: Project, to: Option<ContractId>, amount: int, i: nat)
    requires Inv(p) && IsTarget(p.contracts, to, i)
    ensures var r := Step(p, AddPayment(to, amount));
            var payments := p.payments + [Payment(p.nextPayment, p.contracts[i].id, amount)];
            && (r.Ok? <==> Cents(amount) && p.stage != Cancelled && Balanced(p.contracts, payments))
            && (r.Ok? ==> r.value == p.(payments := payments, nextPayment := p.nextPayment + 1))
            && (forall k :: 0 <= k < |p.payments| ==> p.payments[k].id != p.nextPayment)
  {
    var added := Payment(p.nextPayment, p.contracts[i].id, amount);
    PickIsTarget(p, to, i);
    if amount > 0 {
      NewPaymentExact(p, i, amount);
      FineIff(p.contracts, p.payments + [added]);
    }
  }

  /** A refusal for the amount names the limit: exactly what is within it would leave a balanced ledger. */
  lemma {:induction false} RefusalNamesLimit(p: Project, to: Option<ContractId>, amount: int, i: nat, limit: int,
                                             other: int)
    requires Inv(p) && IsTarget(p.contracts, to, i) && other > 0
    requires Step(p, AddPayment(to, amount)) == Err(AboveRemaining(limit))
    ensures limit < amount
    ensures other <= limit
       <==> Balanced(p.contracts, p.payments + [Payment(p.nextPayment, p.contracts[i].id, other)])
  {
    var added := Payment(p.nextPayment, p.contracts[i].id, other);
    PickIsTarget(p, to, i);
    NewPaymentExact(p, i, other);
    FineIff(p.contracts, p.payments + [added]);
  }

  lemma {:induction false} AddPaymentNeedsTarget(p: Project, to: Option<ContractId>, amount: int)
    requires Shape(p) && forall i: nat :: !IsTarget(p.contracts, to, i)
    ensures !Step(p, AddPayment(to, amount)).Ok?
  {
    PickHasTarget(p.contracts, p.payments, to);
  }

  lemma {:induction false} PickHasTarget(contracts: seq<Contract>, payments: seq<Payment>, to: Option<ContractId>)
    ensures PickSpec(Rows(contracts, payments, None), to).Some? ==> exists i: nat :: IsTarget(contracts, to, i)
  {
    var rows := Rows(contracts, payments, None);
    PickIsARow(rows, to);
    PickIsOfKind(rows, to);
    if PickSpec(rows, to).Some? {
      var i :| 0 <= i < |rows| && rows[i] == PickSpec(rows, to).value;
      forall k | 0 <= k < |contracts| ensures rows[k] in rows && rows[k].kind == contracts[k].kind {
      }
      assert IsTarget(contracts, to, i);
    }
  }

  lemma {:induction false} PickIsOfKind(rows: seq<Row>, to: Option<ContractId>)
    ensures PickSpec(rows, to).Some? && to.Some? ==> PickSpec(rows, to).value.id == to.value
    ensures PickSpec(rows, to).Some? && to.None? ==>
              PickSpec(rows, to).value.kind == Main || forall r :: r in rows ==> r.kind == Intro
  {
    LastIsNone(rows, Main);
    if to.Some? && rows != [] {
      PickIsOfKind(rows[1..], to);
    }
  }

  /** So the contract has exactly that much more, and every other one what it had. */
  lemma {:induction false} AddPaymentAdds(p: Project, to: Option<ContractId>, amount: int, i: nat, c: ContractId)
    requires Inv(p) && IsTarget(p.contracts, to, i) && Step(p, AddPayment(to, amount)).Ok?
    ensures Sum(Step(p, AddPayment(to, amount)).value.payments, c)
         == Sum(p.payments, c) + if c == p.contracts[i].id then amount else 0
  {
    AddPaymentIs(p, to, amount, i);
    var added := Payment(p.nextPayment, p.contracts[i].id, amount);
    SumAppend(p.payments, [added], c);
    SumOne(added, c);
  }

  /** A recorded amount is changed when the ledger with the change is balanced. */
  lemma {:induction false} EditPaymentIs(p: Project, id: PaymentId, newAmount: Option<int>, at: nat)
    requires Inv(p) && IsPayment(p.payments, at, id)
    ensures var r := Step(p, EditPayment(id, newAmount));
            var amount := if newAmount.Some? then newAmount.value else p.payments[at].amount;
            var payments := p.payments[at := Payment(id, p.payments[at].contract, amount)];
            && (r.Ok? <==> && (newAmount.Some? ==> Cents(amount)) && p.stage != Cancelled
                           && Balanced(p.contracts, payments))
            && (r.Ok? ==> r.value == p.(payments := payments))
  {
    assert PaymentAt(p.payments, id) == at;
    if newAmount.None? || newAmount.value == p.payments[at].amount {
      SameAmount(p, at);
    } else if Cents(newAmount.value) {
      ChangedBalance(p, at, newAmount.value);
    }
  }

  lemma {:induction false} SameAmount(p: Project, at: nat)
    requires Inv(p) && at < |p.payments|
    ensures p.payments[at := Payment(p.payments[at].id, p.payments[at].contract, p.payments[at].amount)] == p.payments
    ensures Balanced(p.contracts, p.payments)
    ensures ContractAt(p.contracts, p.payments[at].contract) < |p.contracts|
  {
    FineIff(p.contracts, p.payments);
  }

  lemma {:induction false} ChangedBalance(p: Project, at: nat, amount: int)
    requires Inv(p) && at < |p.payments| && Cents(amount) && amount != p.payments[at].amount
    ensures var id, contract := p.payments[at].id, p.payments[at].contract;
            var i := ContractAt(p.contracts, contract);
            && i < |p.contracts|
            && (amount <= MaxPayment(MoneyOf(Rows(p.contracts, p.payments, Some(id))), p.contracts[i].kind)
                <==> Balanced(p.contracts, p.payments[at := Payment(id, contract, amount)]))
            && p.payments[at := p.payments[at].(amount := amount)] == p.payments[at := Payment(id, contract, amount)]
  {
    var payments := p.payments[at := p.payments[at].(amount := amount)];
    var i := ContractAt(p.contracts, p.payments[at].contract);
    assert HasContract(p.contracts, p.payments[at].contract);
    ChangedPaymentExact(p, at, i, amount);
    FineIff(p.contracts, payments);
  }

  lemma {:induction false} EditPaymentChanges(p: Project, at: nat, amount: int, c: ContractId)
    requires at < |p.payments|
    ensures var payments := p.payments[at := p.payments[at].(amount := amount)];
            Sum(payments, c)
            == Sum(p.payments, c) + if c == p.payments[at].contract then amount - p.payments[at].amount else 0
  {
    var changed := p.payments[at].(amount := amount);
    SumAt(p.payments, at, c);
    SumAt(p.payments[at := changed], at, c);
    assert p.payments[at := changed][..at] == p.payments[..at];
    assert p.payments[at := changed][at + 1..] == p.payments[at + 1..];
    SumOne(changed, c);
    SumOne(p.payments[at], c);
  }

  /** A recorded payment is taken away, whatever its amount. */
  lemma {:induction false} DeletePaymentIs(p: Project, id: PaymentId, at: nat)
    requires Inv(p) && IsPayment(p.payments, at, id)
    ensures var r := Step(p, DeletePayment(id));
            && (r.Ok? <==> p.stage != Cancelled)
            && (r.Ok? ==> r.value == p.(payments := p.payments[..at] + p.payments[at + 1..]))
  {
  }

  lemma {:induction false} DeletePaymentTakes(p: Project, at: nat, c: ContractId)
    requires at < |p.payments|
    ensures Sum(p.payments[..at] + p.payments[at + 1..], c)
         == Sum(p.payments, c) - if c == p.payments[at].contract then p.payments[at].amount else 0
  {
    SumAt(p.payments, at, c);
    SumAppend(p.payments[..at], p.payments[at + 1..], c);
    SumOne(p.payments[at], c);
  }

  lemma {:induction false} UnknownPaymentIsRefused(p: Project, id: PaymentId, newAmount: Option<int>)
    requires forall i :: 0 <= i < |p.payments| ==> p.payments[i].id != id
    ensures !Step(p, EditPayment(id, newAmount)).Ok? && !Step(p, DeletePayment(id)).Ok?
  {
  }

  // ---- estimate and stage --------------------------------------------------------------------

  /** Given lines are replaced or removed while there is no main contract, and the others stay. */
  lemma {:induction false} SetEstimateIs(p: Project, lines: map<Line, Option<Quote>>)
    ensures var r := Step(p, SetEstimate(lines));
            && (r.Ok? <==> && lines != map[] && p.stage != Cancelled
                           && (forall line :: line in lines && lines[line].Some? ==>
                                 Cents(lines[line].value.amount) && lines[line].value.currency != Unset)
                           && forall i :: 0 <= i < |p.contracts| ==> p.contracts[i].kind != Main)
            && (r.Ok? ==>
                  && r.value == p.(estimate := r.value.estimate)
                  && forall line: Line ::
                       if line !in lines
                       then (line in r.value.estimate <==> line in p.estimate)
                            && (line in p.estimate ==> r.value.estimate[line] == p.estimate[line])
                       else (line in r.value.estimate <==> lines[line].Some?)
                            && (lines[line].Some? ==> r.value.estimate[line] == lines[line].value))
  {
    if forall i :: 0 <= i < |p.contracts| ==> p.contracts[i].kind != Main {
      assert !HasKind(p.contracts, Main);
    }
  }

  /** A stage picked by hand, with its date; cancelling remembers the stage and restoring goes back to it. */
  lemma {:induction false} StageRequestsAre(p: Project, stage: Stage, event: Option<Date>)
    ensures var r := Step(p, ChangeStage(stage, event));
            && (r.Ok? <==> && p.stage != Cancelled && stage !in {IntroContract, MainContract, Cancelled}
                           && (stage == Completed ==> event == None) && (stage == Measure ==> event != None))
            && (r.Ok? ==> r.value == p.(stage := stage, event := event))
    ensures Step(p, Cancel) == if p.stage == Cancelled then Err(ProjectCancelled)
                               else Ok(p.(stage := Cancelled, event := None, beforeCancel := Some(p.stage)))
    ensures Step(p, Restore) == if p.stage != Cancelled then Err(NotCancelled)
                                else Ok(p.(stage := if p.beforeCancel == None then Estimate else p.beforeCancel.value,
                                           beforeCancel := None))
  {
  }

  // ---- the book of a run ---------------------------------------------------------------------

  function IdOf(contracts: seq<Contract>, kind: Kind): Option<ContractId> {
    if contracts == [] then None
    else if contracts[0].kind == kind then Some(contracts[0].id)
    else IdOf(contracts[1..], kind)
  }

  /** The given contract, else the main one, else the intro one. */
  function Target(contracts: seq<Contract>, to: Option<ContractId>): Option<ContractId> {
    if to.Some? then to else if IdOf(contracts, Main).Some? then IdOf(contracts, Main) else IdOf(contracts, Intro)
  }

  function Changed(book: seq<Payment>, id: PaymentId, amount: int): seq<Payment> {
    if book == [] then []
    else [if book[0].id == id then Payment(id, book[0].contract, amount) else book[0]] + Changed(book[1..], id, amount)
  }

  function Struck(book: seq<Payment>, id: PaymentId): seq<Payment> {
    if book == [] then [] else (if book[0].id == id then [] else [book[0]]) + Struck(book[1..], id)
  }

  /** One line per accepted payment, as changed since, and none for those that were deleted. */
  function Booked(p: Project, op: Op, book: seq<Payment>): seq<Payment> {
    if !Accepted(p, op) then book
    else
      match op
      case AddPayment(to, amount) =>
        if Target(p.contracts, to).None? then book
        else book + [Payment(p.nextPayment, Target(p.contracts, to).value, amount)]
      case EditPayment(id, newAmount) => if newAmount.None? then book else Changed(book, id, newAmount.value)
      case DeletePayment(id) => Struck(book, id)
      case _ => book
  }

  function Book(p: Project, ops: seq<Op>, book: seq<Payment>): seq<Payment>
    decreases |ops|
  {
    if ops == [] then book else Book(After(p, ops[0]), ops[1..], Booked(p, ops[0], book))
  }

  predicate OnePerId(book: seq<Payment>) {
    forall i, j :: 0 <= i < j < |book| ==> book[i].id != book[j].id
  }

  lemma {:induction false} ChangedIs(book: seq<Payment>, id: PaymentId, amount: int, at: nat)
    requires OnePerId(book) && IsPayment(book, at, id)
    ensures Changed(book, id, amount) == book[at := Payment(id, book[at].contract, amount)]
  {
    if at == 0 {
      ChangedAbsent(book[1..], id, amount);
    } else {
      ChangedIs(book[1..], id, amount, at - 1);
    }
  }

  lemma {:induction false} ChangedAbsent(book: seq<Payment>, id: PaymentId, amount: int)
    requires forall i :: 0 <= i < |book| ==> book[i].id != id
    ensures Changed(book, id, amount) == book && Struck(book, id) == book
  {
    if book != [] {
      ChangedAbsent(book[1..], id, amount);
    }
  }

  lemma {:induction false} StruckIs(book: seq<Payment>, id: PaymentId, at: nat)
    requires OnePerId(book) && IsPayment(book, at, id)
    ensures Struck(book, id) == book[..at] + book[at + 1..]
  {
    if at == 0 {
      ChangedAbsent(book[1..], id, 0);
    } else {
      StruckIs(book[1..], id, at - 1);
      assert book[..at] == [book[0]] + book[1..][..at - 1];
    }
  }

  lemma {:induction false} IdOfIs(contracts: seq<Contract>, kind: Kind)
    ensures IdOf(contracts, kind).Some? ==>
              exists i :: 0 <= i < |contracts| && contracts[i].id == IdOf(contracts, kind).value
                          && contracts[i].kind == kind
    ensures IdOf(contracts, kind).None? ==> forall i :: 0 <= i < |contracts| ==> contracts[i].kind != kind
  {
    if contracts != [] && contracts[0].kind != kind {
      IdOfIs(contracts[1..], kind);
      if IdOf(contracts, kind).Some? {
        var i :| 0 <= i < |contracts| - 1 && contracts[1..][i].id == IdOf(contracts, kind).value
                 && contracts[1..][i].kind == kind;
        assert contracts[i + 1] == contracts[1..][i];
      }
    }
  }

  lemma {:induction false} TargetIs(contracts: seq<Contract>, to: Option<ContractId>, i: nat)
    requires IsTarget(contracts, to, i)
    requires forall j, k :: 0 <= j < k < |contracts| ==> contracts[j].kind != contracts[k].kind
    ensures Target(contracts, to) == Some(contracts[i].id)
  {
    IdOfIs(contracts, Main);
    IdOfIs(contracts, Intro);
  }

  lemma {:induction false} StepIsBooked(p: Project, op: Op)
    requires Inv(p)
    ensures After(p, op).payments == Booked(p, op, p.payments)
  {
    if Accepted(p, op) {
      match op
      case AddPayment(to, amount) =>
        if i: nat :| IsTarget(p.contracts, to, i) {
          AddPaymentIs(p, to, amount, i);
          TargetIs(p.contracts, to, i);
        } else {
          AddPaymentNeedsTarget(p, to, amount);
        }
      case EditPayment(id, newAmount) =>
        if at: nat :| IsPayment(p.payments, at, id) {
          EditPaymentIs(p, id, newAmount, at);
          if newAmount.Some? {
            ChangedIs(p.payments, id, newAmount.value, at);
          }
        } else {
          NoPayment(p, id, newAmount);
        }
      case DeletePayment(id) =>
        if at: nat :| IsPayment(p.payments, at, id) {
          DeletePaymentIs(p, id, at);
          StruckIs(p.payments, id, at);
        } else {
          NoPayment(p, id, None);
        }
      case _ =>
    }
  }

  lemma {:induction false} NoPayment(p: Project, id: PaymentId, newAmount: Option<int>)
    requires forall at: nat :: !IsPayment(p.payments, at, id)
    ensures !Step(p, EditPayment(id, newAmount)).Ok? && !Step(p, DeletePayment(id)).Ok?
  {
    forall i | 0 <= i < |p.payments| ensures p.payments[i].id != id {
      assert !IsPayment(p.payments, i, id);
    }
    UnknownPaymentIsRefused(p, id, newAmount);
  }

  lemma {:induction false} RunIsBooked(p: Project, ops: seq<Op>)
    requires Inv(p)
    ensures Run(p, ops).payments == Book(p, ops, p.payments)
    decreases |ops|
  {
    if ops != [] {
      StepIsBooked(p, ops[0]);
      StepKeepsInv(p, ops[0]);
      RunIsBooked(After(p, ops[0]), ops[1..]);
    }
  }

  /**
   In every run from a new project the money on each contract is the sum of the payments that were accepted for it, as
   they were changed, without those that were deleted.
   */
  lemma {:induction false} MoneyIsBooked(ops: seq<Op>, contract: ContractId)
    ensures Run(NEW_PROJECT, ops).payments == Book(NEW_PROJECT, ops, [])
    ensures Paid(Run(NEW_PROJECT, ops).payments, contract, None) == Sum(Book(NEW_PROJECT, ops, []), contract)
  {
    RunIsBooked(NEW_PROJECT, ops);
    PaidIsSum(Book(NEW_PROJECT, ops, []), contract);
  }
}
