/** `PollBudgetInvoices`: walk a workspace's invoices, ask the lightning gateway about
    each, and credit the workspace budget for every settled, not yet paid BUDGET invoice,
    marking it paid afterwards. The walk stops at the first gateway error. */
module Invoices {
  import opened WorkspaceState

  const BudgetType := "BUDGET"

  /** An invoice row of a workspace; `status` is the paid flag that `UpdateInvoice` sets. */
  datatype Invoice = Invoice(paymentRequest: string, kind: string, amount: nat, status: bool)

  /** The gateway's answer for one payment request; a non-empty `error` means the call failed. */
  datatype InvoiceReply = InvoiceReply(settled: bool, error: string)

  /** `getLightningInvoice`, a network client, given as an oracle. */
  type Gateway = string -> InvoiceReply

  /** One workspace's total budget and its stored invoices. */
  datatype Ledger = Ledger(budget: nat, invoices: seq<Invoice>)

  datatype PollResult = PollResult(status: Status, ledger: Ledger)

  /** The condition under which the loop credits an invoice it reads. */
  predicate Creditable(inv: Invoice, reply: InvoiceReply) {
    reply.settled && !inv.status && inv.kind == BudgetType
  }

  /** `UpdateInvoice` for every payment request in `requests`: each stored invoice
      carrying one of them gets its paid flag set. */
  function MarkAll(invoices: seq<Invoice>, requests: set<string>): seq<Invoice> {
    seq(|invoices|, i requires 0 <= i < |invoices| =>
      if invoices[i].paymentRequest in requests then invoices[i].(status := true) else invoices[i])
  }

  /** The loop of the handler over the invoice list `pending` it fetched at the start:
      the paid flag it tests is the one in that list, while the marking goes to the
      stored invoices. */
  function Poll(ledger: Ledger, pending: seq<Invoice>, gateway: Gateway): (r: PollResult)
    ensures r.status in {OK, Forbidden}
    // OK exactly when every gateway call answered without error
    ensures r.status == OK <==> forall i :: 0 <= i < |pending| ==> gateway(pending[i].paymentRequest).error == ""
    ensures r.ledger.budget >= ledger.budget
    ensures |r.ledger.invoices| == |ledger.invoices|
    decreases |pending|
  {
    if pending == [] then PollResult(OK, ledger)
    else
      var inv := pending[0];
      var reply := gateway(inv.paymentRequest);
      if reply.error != "" then PollResult(Forbidden, ledger)
      else if Creditable(inv, reply) then
        var credited := ledger.(budget := ledger.budget + inv.amount);
        Poll(credited.(invoices := MarkAll(credited.invoices, {inv.paymentRequest})), pending[1..], gateway)
      else Poll(ledger, pending[1..], gateway)
  }

  // An independent description of one poll: the invoices examined before the first
  // failing gateway call, the amount credited for them, and the payment requests marked.

  function Examined(pending: seq<Invoice>, gateway: Gateway): seq<Invoice>
    decreases |pending|
  {
    if pending == [] || gateway(pending[0].paymentRequest).error != "" then []
    else [pending[0]] + Examined(pending[1..], gateway)
  }

  function CreditedAmount(examined: seq<Invoice>, gateway: Gateway): nat
    decreases |examined|
  {
    if examined == [] then 0
    else
      (if Creditable(examined[0], gateway(examined[0].paymentRequest)) then examined[0].amount else 0)
      + CreditedAmount(examined[1..], gateway)
  }

  function CreditedRequests(examined: seq<Invoice>, gateway: Gateway): set<string>
    decreases |examined|
  {
    if examined == [] then {}
    else
      (if Creditable(examined[0], gateway(examined[0].paymentRequest)) then {examined[0].paymentRequest} else {})
      + CreditedRequests(examined[1..], gateway)
  }

  /** The examined invoices are the prefix of the list up to the first failing gateway
      call: every call before it answered without error, and the next one failed. */
  lemma {:induction false} ExaminedIsPrefixBeforeError(pending: seq<Invoice>, gateway: Gateway)
    ensures |Examined(pending, gateway)| <= |pending|
    ensures Examined(pending, gateway) == pending[..|Examined(pending, gateway)|]
    ensures forall i :: 0 <= i < |Examined(pending, gateway)| ==> gateway(pending[i].paymentRequest).error == ""
    ensures |Examined(pending, gateway)| < |pending| ==>
      gateway(pending[|Examined(pending, gateway)|].paymentRequest).error != ""
    decreases |pending|
  {
    if pending != [] && gateway(pending[0].paymentRequest).error == "" {
      ExaminedIsPrefixBeforeError(pending[1..], gateway);
      var e := Examined(pending[1..], gateway);
      assert Examined(pending, gateway) == [pending[0]] + e;
      assert pending[..|e| + 1] == [pending[0]] + pending[1..][..|e|];
      forall i | 0 <= i < |e| + 1
        ensures gateway(pending[i].paymentRequest).error == ""
      {
        if i > 0 { assert pending[i] == pending[1..][i - 1]; }
      }
    }
  }

  lemma MarkAllNothing(invoices: seq<Invoice>)
    ensures MarkAll(invoices, {}) == invoices
  {
  }

  lemma MarkAllTwice(invoices: seq<Invoice>, s: set<string>, t: set<string>)
    ensures MarkAll(MarkAll(invoices, s), t) == MarkAll(invoices, s + t)
  {
  }

  /** One poll in closed form: Forbidden exactly when a gateway call failed; the budget
      grows by the amounts of the creditable examined invoices and precisely their payment
      requests are marked paid. */
  lemma {:induction false} PollClosedForm(ledger: Ledger, pending: seq<Invoice>, gateway: Gateway)
    ensures var e := Examined(pending, gateway);
      Poll(ledger, pending, gateway) == PollResult(
        if |e| < |pending| then Forbidden else OK,
        Ledger(ledger.budget + CreditedAmount(e, gateway),
               MarkAll(ledger.invoices, CreditedRequests(e, gateway))))
    decreases |pending|
  {
    if pending == [] {
      MarkAllNothing(ledger.invoices);
    } else {
      var inv := pending[0];
      var reply := gateway(inv.paymentRequest);
      if reply.error != "" {
        MarkAllNothing(ledger.invoices);
      } else {
        var e := Examined(pending[1..], gateway);
        assert Examined(pending, gateway) == [inv] + e;
        assert ([inv] + e)[1..] == e;
        ExaminedIsPrefixBeforeError(pending[1..], gateway);
        if Creditable(inv, reply) {
          var next := Ledger(ledger.budget + inv.amount, MarkAll(ledger.invoices, {inv.paymentRequest}));
          PollClosedForm(next, pending[1..], gateway);
          MarkAllTwice(ledger.invoices, {inv.paymentRequest}, CreditedRequests(e, gateway));
        } else {
          PollClosedForm(ledger, pending[1..], gateway);
          assert {} + CreditedRequests(e, gateway) == CreditedRequests(e, gateway);
        }
      }
    }
  }

  /** Marking changes paid flags only, so the gateway fails at the same positions. */
  lemma {:induction false} ExaminedAfterMarking(pending: seq<Invoice>, requests: set<string>, gateway: Gateway)
    ensures Examined(MarkAll(pending, requests), gateway) == MarkAll(Examined(pending, gateway), requests)
    decreases |pending|
  {
    var marked := MarkAll(pending, requests);
    if pending != [] {
      assert marked[0].paymentRequest == pending[0].paymentRequest;
      assert marked[1..] == MarkAll(pending[1..], requests);
      if gateway(pending[0].paymentRequest).error == "" {
        ExaminedAfterMarking(pending[1..], requests, gateway);
        var e := Examined(pending[1..], gateway);
        assert MarkAll([pending[0]] + e, requests) == [marked[0]] + MarkAll(e, requests);
      }
    }
  }

  /** Once the credited payment requests are marked, nothing in the examined invoices
      is creditable any more. */
  lemma {:induction false} NothingCreditableAfterMarking(examined: seq<Invoice>, requests: set<string>, gateway: Gateway)
    requires CreditedRequests(examined, gateway) <= requests
    ensures CreditedAmount(MarkAll(examined, requests), gateway) == 0
    ensures CreditedRequests(MarkAll(examined, requests), gateway) == {}
    decreases |examined|
  {
    var marked := MarkAll(examined, requests);
    if examined != [] {
      assert marked[1..] == MarkAll(examined[1..], requests);
      assert !Creditable(marked[0], gateway(marked[0].paymentRequest));
      NothingCreditableAfterMarking(examined[1..], requests, gateway);
    }
  }

  /** A second poll over the invoices the first one left, against the same gateway
      answers, credits nothing and changes nothing: the first poll marked every invoice it
      credited, and it failed, if at all, at the same invoice. */
  lemma PollAgainCreditsNothing(ledger: Ledger, gateway: Gateway)
    ensures var first := Poll(ledger, ledger.invoices, gateway);
      Poll(first.ledger, first.ledger.invoices, gateway) == first
  {
    var e := Examined(ledger.invoices, gateway);
    var requests := CreditedRequests(e, gateway);
    PollClosedForm(ledger, ledger.invoices, gateway);
    var first := Poll(ledger, ledger.invoices, gateway);
    assert first.ledger.invoices == MarkAll(ledger.invoices, requests);
    PollClosedForm(first.ledger, first.ledger.invoices, gateway);
    ExaminedAfterMarking(ledger.invoices, requests, gateway);
    NothingCreditableAfterMarking(e, requests, gateway);
    MarkAllNothing(first.ledger.invoices);
  }

  /** A payment request credited from invoices marked with `requests` is never one of
      `requests`: marking sets the paid flag that creditability tests. */
  lemma {:induction false} CreditedAfterMarkingAvoids(examined: seq<Invoice>, requests: set<string>, gateway: Gateway)
    ensures CreditedRequests(MarkAll(examined, requests), gateway) !! requests
    decreases |examined|
  {
    var marked := MarkAll(examined, requests);
    if examined != [] {
      assert marked[1..] == MarkAll(examined[1..], requests);
      CreditedAfterMarkingAvoids(examined[1..], requests, gateway);
    }
  }

  /** An invoice credited by one poll is never credited by the next, whatever the gateway
      answers the second time: the second poll reads the rows the first one marked paid. */
  lemma PollNeverCreditsTwice(ledger: Ledger, g1: Gateway, g2: Gateway)
    ensures var first := Poll(ledger, ledger.invoices, g1);
      CreditedRequests(Examined(ledger.invoices, g1), g1)
        !! CreditedRequests(Examined(first.ledger.invoices, g2), g2)
  {
    var credited := CreditedRequests(Examined(ledger.invoices, g1), g1);
    PollClosedForm(ledger, ledger.invoices, g1);
    ExaminedAfterMarking(ledger.invoices, credited, g2);
    CreditedAfterMarkingAvoids(Examined(ledger.invoices, g2), credited, g2);
  }

  /** When the call for invoice `k` is the first to fail, the poll ends Forbidden with
      exactly the effects of the invoices before `k`; `k` and the invoices after it are
      never examined. */
  lemma {:induction false} PollStopsAtFirstError(ledger: Ledger, pending: seq<Invoice>, gateway: Gateway, k: nat)
    requires k < |pending|
    requires gateway(pending[k].paymentRequest).error != ""
    requires forall i :: 0 <= i < k ==> gateway(pending[i].paymentRequest).error == ""
    ensures Poll(ledger, pending, gateway)
      == PollResult(Forbidden, Poll(ledger, pending[..k], gateway).ledger)
    ensures Poll(ledger, pending[..k], gateway).status == OK
    decreases k
  {
    var inv := pending[0];
    var reply := gateway(inv.paymentRequest);
    if k > 0 {
      assert pending[..k][0] == inv;
      assert pending[..k][1..] == pending[1..][..k - 1];
      var next := if Creditable(inv, reply)
        then Ledger(ledger.budget + inv.amount, MarkAll(ledger.invoices, {inv.paymentRequest}))
        else ledger;
      forall i | 0 <= i < k - 1
        ensures gateway(pending[1..][i].paymentRequest).error == ""
      {
        assert pending[1..][i] == pending[i + 1];
      }
      PollStopsAtFirstError(next, pending[1..], gateway, k - 1);
    }
  }

  /** Only a creditable examined invoice moves the budget or a paid flag: a stored
      invoice whose payment request was not credited is left as it was, and if no
      examined invoice is creditable the ledger is unchanged. */
  lemma PollChangesOnlyCredited(ledger: Ledger, pending: seq<Invoice>, gateway: Gateway)
    ensures var r := Poll(ledger, pending, gateway);
      var credited := CreditedRequests(Examined(pending, gateway), gateway);
      && r.ledger.budget >= ledger.budget
      && |r.ledger.invoices| == |ledger.invoices|
      && (forall j :: 0 <= j < |ledger.invoices| && ledger.invoices[j].paymentRequest !in credited ==>
            r.ledger.invoices[j] == ledger.invoices[j])
      && (forall j :: 0 <= j < |ledger.invoices| && ledger.invoices[j].paymentRequest in credited ==>
            r.ledger.invoices[j] == ledger.invoices[j].(status := true))
      && (credited == {} ==> r.ledger == ledger)
  {
    PollClosedForm(ledger, pending, gateway);
    if CreditedRequests(Examined(pending, gateway), gateway) == {} {
      NoCreditedRequestNoAmount(Examined(pending, gateway), gateway);
      MarkAllNothing(ledger.invoices);
    }
  }

  lemma {:induction false} NoCreditedRequestNoAmount(examined: seq<Invoice>, gateway: Gateway)
    requires CreditedRequests(examined, gateway) == {}
    ensures CreditedAmount(examined, gateway) == 0
    decreases |examined|
  {
    if examined != [] {
      assert !Creditable(examined[0], gateway(examined[0].paymentRequest));
      NoCreditedRequestNoAmount(examined[1..], gateway);
    }
  }

  /** Budget 0 and one settled BUDGET invoice of 5000: the poll credits 5000 and marks the
      invoice paid, and a second poll leaves the budget at 5000. */
  lemma SettledBudgetInvoiceScenario(pr: string, gateway: Gateway)
    requires gateway(pr) == InvoiceReply(true, "")
    ensures var ledger := Ledger(0, [Invoice(pr, BudgetType, 5000, false)]);
      var first := Poll(ledger, ledger.invoices, gateway);
      && first == PollResult(OK, Ledger(5000, [Invoice(pr, BudgetType, 5000, true)]))
      && Poll(first.ledger, first.ledger.invoices, gateway) == first
  {
    var ledger := Ledger(0, [Invoice(pr, BudgetType, 5000, false)]);
    assert MarkAll(ledger.invoices, {pr}) == [Invoice(pr, BudgetType, 5000, true)];
    PollAgainCreditsNothing(ledger, gateway);
  }

  /** A failing gateway call leaves the invoice unpaid and the budget unchanged; a later
      poll whose call succeeds credits it as usual. */
  lemma GatewayErrorThenRecoveryScenario(pr: string, failing: Gateway, healthy: Gateway)
    requires failing(pr).error != ""
    requires healthy(pr) == InvoiceReply(true, "")
    ensures var ledger := Ledger(0, [Invoice(pr, BudgetType, 5000, false)]);
      var first := Poll(ledger, ledger.invoices, failing);
      && first == PollResult(Forbidden, ledger)
      && Poll(first.ledger, first.ledger.invoices, healthy)
         == PollResult(OK, Ledger(5000, [Invoice(pr, BudgetType, 5000, true)]))
  {
    var ledger := Ledger(0, [Invoice(pr, BudgetType, 5000, false)]);
    assert MarkAll(ledger.invoices, {pr}) == [Invoice(pr, BudgetType, 5000, true)];
  }

  /** The workspace's budget row and invoice rows, which the handler updates in place. */
  class WorkspaceLedger {
    var budget: nat
    var invoices: seq<Invoice>

    function State(): Ledger
      reads this
    {
      Ledger(budget, invoices)
    }

    constructor (budget: nat, invoices: seq<Invoice>)
      ensures State() == Ledger(budget, invoices)
    {
      this.budget := budget;
      this.invoices := invoices;
    }

    /** `AddAndUpdateBudget`: add the invoice amount to the workspace's total budget. */
    method AddAndUpdateBudget(inv: Invoice)
      modifies this
      ensures budget == old(budget) + inv.amount
      ensures invoices == old(invoices)
    {
      budget := budget + inv.amount;
    }

    /** `UpdateInvoice`: set the paid flag of the invoices with this payment request. */
    method UpdateInvoice(paymentRequest: string)
      modifies this
      ensures invoices == MarkAll(old(invoices), {paymentRequest})
      ensures budget == old(budget)
    {
      invoices := MarkAll(invoices, {paymentRequest});
    }

    /** The handler: reject an unauthenticated caller, otherwise poll the invoice list as
        fetched at the start. The credit and the marking are two separate updates. */
    method PollBudgetInvoices(pubKeyFromAuth: string, gateway: Gateway) returns (status: Status)
      modifies this
      ensures pubKeyFromAuth == "" ==> status == Unauthorized && State() == old(State())
      ensures pubKeyFromAuth != "" ==>
        PollResult(status, State()) == Poll(old(State()), old(invoices), gateway)
    {
      if pubKeyFromAuth == "" {
        return Unauthorized;
      }
      var orgInvoices := invoices;
      var i := 0;
      while i < |orgInvoices|
        invariant 0 <= i <= |orgInvoices|
        invariant Poll(State(), orgInvoices[i..], gateway) == Poll(old(State()), orgInvoices, gateway)
      {
        var inv := orgInvoices[i];
        assert orgInvoices[i..][0] == inv && orgInvoices[i..][1..] == orgInvoices[i + 1..];
        var reply := gateway(inv.paymentRequest);
        if reply.error != "" {
          return Forbidden;
        }
        if reply.settled {
          if !inv.status && inv.kind == BudgetType {
            AddAndUpdateBudget(inv);
            UpdateInvoice(inv.paymentRequest);
          }
        }
        i := i + 1;
      }
      return OK;
    }
  }
}
