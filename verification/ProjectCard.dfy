/**
 The project handlers as they run (internal/crmapi/projects_mutations.go, projects_pipeline.go): each locks the
 project, checks in the original's order, edits the loaded rows where the original does, and then writes. Every
 one is proved to answer and to leave the project exactly as the ledger's step says, so what `Ledger` proves of
 all runs holds of them.
 */
module ProjectCard {
  import opened Prelude
  import opened Ledger

  /** What a request answers: nothing when it is accepted. */
  function Refusal(r: Result<Project, Error>): Option<Error> {
    match r
    case Ok(_) => None
    case Err(e) => Some(e)
  }

  /** `op` on `before` answers `error` and leaves `after`. */
  predicate Handled(before: Project, op: Op, error: Option<Error>, after: Project) {
    error == Refusal(Step(before, op)) && after == After(before, op)
  }

  const ESTIMATE_LINES := [Kitchen, Appliances, InstallationLine, Countertop]

  method KindTaken(rows: seq<Row>, kind: Kind) returns (taken: bool)
    ensures taken <==> exists i :: 0 <= i < |rows| && rows[i].kind == kind
  {
    for i := 0 to |rows|
      invariant forall k :: 0 <= k < i ==> rows[k].kind != kind
    {
      if rows[i].kind == kind {
        return true;
      }
    }
    return false;
  }

  class Card {
    var stage: Stage
    var event: Option<Date>
    var beforeCancel: Option<Stage>
    var contracts: seq<Contract>
    var payments: seq<Payment>
    var estimate: map<Line, Quote>
    var nextContract: ContractId
    var nextPayment: PaymentId

    ghost function State(): Project
      reads this
    {
      Project(stage, event, beforeCancel, contracts, payments, estimate, nextContract, nextPayment)
    }

    constructor ()
      ensures State() == NEW_PROJECT && Inv(State())
    {
      stage, event, beforeCancel := Estimate, None, None;
      contracts, payments, estimate := [], [], map[];
      nextContract, nextPayment := 0, 0;
    }

    method LoadContracts(exclude: Option<PaymentId>) returns (rows: seq<Row>)
      ensures rows == Rows(contracts, payments, exclude)
    {
      rows := [];
      for i := 0 to |contracts|
        invariant rows == Rows(contracts[..i], payments, exclude)
      {
        rows := rows + [RowOf(contracts[i], payments, exclude)];
      }
      assert contracts[..|contracts|] == contracts;
    }

    method AddContract(kind: Kind, total: int, currency: Currency) returns (error: Option<Error>)
      modifies this
      ensures Handled(old(State()), Op.AddContract(kind, total, currency), error, State())
      ensures Inv(old(State())) ==> Inv(State())
    {
      if !ValidCents(total) || currency.Unset? {
        return Some(InvalidRequest);
      }
      if stage.Cancelled? {
        return Some(ProjectCancelled);
      }
      var rows := LoadContracts(None);
      var taken := KindTaken(rows, kind);
      assert taken == HasKind(contracts, kind) by {
        assert forall k :: 0 <= k < |rows| ==> rows[k].kind == contracts[k].kind;
      }
      if taken {
        return Some(ContractExists);
      }
      var money := MoneyFromContracts(rows + [Row(nextContract, kind, total, currency, 0)]);
      if !Overpaid(money).Fine? {
        return Some(TotalBelowPaid(Overpaid(money)));
      }
      contracts, nextContract := contracts + [Contract(nextContract, kind, total, currency)], nextContract + 1;
      var nextStage := StageAfterContract(stage, kind);
      if nextStage != stage {
        stage, event := nextStage, None;
      }
      HandledKeepsInv(old(State()), Op.AddContract(kind, total, currency), None, State());
      return None;
    }

    method EditContract(id: ContractId, newTotal: Option<int>, newCurrency: Option<Currency>)
      returns (error: Option<Error>)
      requires forall i, j :: 0 <= i < j < |contracts| ==> contracts[i].id != contracts[j].id
      modifies this
      ensures Handled(old(State()), Op.EditContract(id, newTotal, newCurrency), error, State())
      ensures Inv(old(State())) ==> Inv(State())
    {
      if (newTotal.Some? && !ValidCents(newTotal.value)) || newCurrency == Some(Unset) {
        return Some(InvalidRequest);
      }
      if stage.Cancelled? {
        return Some(ProjectCancelled);
      }
      var at := ContractAt(contracts, id);
      if at == |contracts| {
        return Some(ContractNotFound);
      }
      var current := contracts[at];
      var changed := current;
      if newTotal.Some? && newTotal.value != current.total {
        changed := changed.(total := newTotal.value);
      }
      if newCurrency.Some? && newCurrency.value != current.currency {
        changed := changed.(currency := newCurrency.value);
      }
      assert changed == Edited(current, newTotal, newCurrency);
      var rows := LoadContracts(None);
      for i := 0 to |rows|
        invariant |rows| == |contracts|
        invariant forall k :: 0 <= k < |rows| ==>
                    rows[k] == RowOf(if k == at && k < i then changed else contracts[k], payments, None)
        invariant at < i ==> changed.currency == current.currency || Paid(payments, id, None) <= 0
      {
        if rows[i].id == current.id {
          assert i == at;
          if changed.currency != current.currency && rows[i].paid > 0 {
            return Some(CurrencyLocked);
          }
          rows := rows[i := rows[i].(total := changed.total, currency := changed.currency)];
        }
      }
      assert rows == Rows(contracts[at := changed], payments, None);
      var money := MoneyFromContracts(rows);
      if !Overpaid(money).Fine? {
        return Some(TotalBelowPaid(Overpaid(money)));
      }
      contracts := contracts[at := changed];
      HandledKeepsInv(old(State()), Op.EditContract(id, newTotal, newCurrency), None, State());
      return None;
    }

    method DeleteContract(id: ContractId) returns (error: Option<Error>)
      modifies this
      ensures Handled(old(State()), Op.DeleteContract(id), error, State())
      ensures Inv(old(State())) ==> Inv(State())
    {
      if stage.Cancelled? {
        return Some(ProjectCancelled);
      }
      var at := ContractAt(contracts, id);
      if at == |contracts| {
        return Some(ContractNotFound);
      }
      if HasPayments(payments, id) {
        return Some(ContractHasPayments);
      }
      contracts := contracts[..at] + contracts[at + 1..];
      HandledKeepsInv(old(State()), Op.DeleteContract(id), None, State());
      return None;
    }

    method AddPayment(to: Option<ContractId>, amount: int) returns (error: Option<Error>)
      modifies this
      ensures Handled(old(State()), Op.AddPayment(to, amount), error, State())
      ensures Inv(old(State())) ==> Inv(State())
    {
      if !ValidCents(amount) {
        return Some(InvalidRequest);
      }
      if stage.Cancelled? {
        return Some(ProjectCancelled);
      }
      var rows := LoadContracts(None);
      var target := PickPaymentContract(rows, to);
      if target.None? {
        return Some(if to.Some? then ContractNotFound else ContractRequired);
      }
      var money := MoneyFromContracts(rows);
      var limit := MaxPayment(money, target.value.kind);
      if amount > limit {
        return Some(AboveRemaining(limit));
      }
      payments, nextPayment := payments + [Payment(nextPayment, target.value.id, amount)], nextPayment + 1;
      HandledKeepsInv(old(State()), Op.AddPayment(to, amount), None, State());
      return None;
    }

    method EditPayment(id: PaymentId, newAmount: Option<int>) returns (error: Option<Error>)
      modifies this
      ensures Handled(old(State()), Op.EditPayment(id, newAmount), error, State())
      ensures Inv(old(State())) ==> Inv(State())
    {
      if newAmount.Some? && !ValidCents(newAmount.value) {
        return Some(InvalidRequest);
      }
      if stage.Cancelled? {
        return Some(ProjectCancelled);
      }
      var at := PaymentAt(payments, id);
      if at == |payments| || ContractAt(contracts, payments[at].contract) == |contracts| {
        return Some(PaymentNotFound);
      }
      var current := payments[at];
      if newAmount.Some? && newAmount.value != current.amount {
        var rows := LoadContracts(Some(id));
        var money := MoneyFromContracts(rows);
        var limit := MaxPayment(money, contracts[ContractAt(contracts, current.contract)].kind);
        if newAmount.value > limit {
          return Some(AboveRemaining(limit));
        }
        payments := payments[at := current.(amount := newAmount.value)];
      }
      HandledKeepsInv(old(State()), Op.EditPayment(id, newAmount), None, State());
      return None;
    }

    method DeletePayment(id: PaymentId) returns (error: Option<Error>)
      modifies this
      ensures Handled(old(State()), Op.DeletePayment(id), error, State())
      ensures Inv(old(State())) ==> Inv(State())
    {
      if stage.Cancelled? {
        return Some(ProjectCancelled);
      }
      var at := PaymentAt(payments, id);
      if at == |payments| || ContractAt(contracts, payments[at].contract) == |contracts| {
        return Some(PaymentNotFound);
      }
      payments := payments[..at] + payments[at + 1..];
      HandledKeepsInv(old(State()), Op.DeletePayment(id), None, State());
      return None;
    }

    method SetEstimate(lines: map<Line, Option<Quote>>) returns (error: Option<Error>)
      modifies this
      ensures Handled(old(State()), Op.SetEstimate(lines), error, State())
      ensures Inv(old(State())) ==> Inv(State())
    {
      if !ValidLines(lines) {
        return Some(InvalidRequest);
      }
      if stage.Cancelled? {
        return Some(ProjectCancelled);
      }
      if HasKind(contracts, Main) {
        return Some(EstimateLocked);
      }
      for i := 0 to |ESTIMATE_LINES|
        modifies this`estimate
        invariant forall line :: line in ESTIMATE_LINES[..i] && line in lines ==>
                    if lines[line].Some? then line in estimate && estimate[line] == lines[line].value
                    else line !in estimate
        invariant forall line :: line !in ESTIMATE_LINES[..i] || line !in lines ==>
                    if line in old(estimate) then line in estimate && estimate[line] == old(estimate)[line]
                    else line !in estimate
      {
        var line := ESTIMATE_LINES[i];
        if line in lines {
          if lines[line].None? {
            estimate := estimate - {line};
          } else {
            estimate := estimate[line := lines[line].value];
          }
        }
      }
      forall line: Line ensures line in ESTIMATE_LINES[..4] {
        EveryLine(line);
      }
      assert estimate == Requoted(old(estimate), lines);
      HandledKeepsInv(old(State()), Op.SetEstimate(lines), None, State());
      return None;
    }

    method ChangeStage(to: Stage, planned: Option<Date>) returns (error: Option<Error>)
      modifies this
      ensures Handled(old(State()), Op.ChangeStage(to, planned), error, State())
      ensures Inv(old(State())) ==> Inv(State())
    {
      if !Changeable(to, planned) {
        return Some(InvalidRequest);
      }
      if stage.Cancelled? {
        return Some(ProjectCancelled);
      }
      stage, event := to, planned;
      HandledKeepsInv(old(State()), Op.ChangeStage(to, planned), None, State());
      return None;
    }

    method Cancel() returns (error: Option<Error>)
      modifies this
      ensures Handled(old(State()), Op.Cancel, error, State())
      ensures Inv(old(State())) ==> Inv(State())
    {
      if stage.Cancelled? {
        return Some(ProjectCancelled);
      }
      stage, event, beforeCancel := Cancelled, None, Some(stage);
      HandledKeepsInv(old(State()), Op.Cancel, None, State());
      return None;
    }

    method Restore() returns (error: Option<Error>)
      modifies this
      ensures Handled(old(State()), Op.Restore, error, State())
      ensures Inv(old(State())) ==> Inv(State())
    {
      if !stage.Cancelled? {
        return Some(NotCancelled);
      }
      stage, beforeCancel := if beforeCancel.Some? then beforeCancel.value else Estimate, None;
      HandledKeepsInv(old(State()), Op.Restore, None, State());
      return None;
    }
  }

  lemma {:induction false} EveryLine(line: Line)
    ensures line in ESTIMATE_LINES[..4]
  {
    var lines := ESTIMATE_LINES[..4];
    assert lines[0] == Kitchen && lines[1] == Appliances && lines[2] == InstallationLine && lines[3] == Countertop;
    match line
    case Kitchen =>
    case Appliances =>
    case InstallationLine =>
    case Countertop =>
  }

  /** So every handler keeps the ledger's invariant. */
  lemma {:induction false} HandledKeepsInv(before: Project, op: Op, error: Option<Error>, after: Project)
    requires Handled(before, op, error, after)
    ensures Inv(before) ==> Inv(after)
  {
    if Inv(before) {
      StepKeepsInv(before, op);
    }
  }
}
