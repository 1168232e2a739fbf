/**
 * backend/models/Ticket.js: a support ticket with its required fields,
 * status enumeration and the `pre('save')` hook that assigns `T-<ms>`.
 */
module TicketModel {
  import opened Common
  import Decimal
  import Models

  /** `T-${Date.now()}`. */
  function TicketRef(nowMs: nat): string
  {
    "T-" + Decimal.Show(nowMs)
  }

  /** Reads back the timestamp of a reference made by `TicketRef`. */
  function ParseTicketRef(id: string): Option<nat>
  {
    if StartsWith(id, "T-") && |id| > 2 && Decimal.AllDigits(id[2..])
    then Some(Decimal.Parse(id[2..]))
    else None
  }

  lemma TicketRefRoundTrip(nowMs: nat)
    ensures ParseTicketRef(TicketRef(nowMs)) == Some(nowMs)
  {
    assert TicketRef(nowMs)[2..] == Decimal.Show(nowMs);
    Decimal.ParseShow(nowMs);
  }

  /** A `Ticket.js` reference never has the `T-<seconds>-<suffix>` shape of backend/models.js. */
  lemma TicketRefDiffersFromClockId(nowMs: nat, otherMs: nat, suffix: nat)
    ensures TicketRef(nowMs) != Models.ClockId("T-", otherMs, suffix)
  {
    var clock := Models.ClockId("T-", otherMs, suffix);
    var i := 2 + |Decimal.Show(otherMs / 1000)|;
    assert clock[i] == '-';
    var t := TicketRef(nowMs);
    if i < |t| {
      assert t[i] == Decimal.Show(nowMs)[i - 2];
      assert Decimal.IsDigit(t[i]) && t[i] != clock[i];
    } else {
      assert |t| < |clock|;
    }
  }

  class Ticket {
    var userId: Option<nat>
    var userEmail: Option<string>
    var issue: Option<string>
    var status: Models.TicketStatus
    var ticketId: Option<string>
    var createdAt: nat

    /** A new ticket takes the schema defaults: status `open`, created now. */
    constructor (userId: Option<nat>, userEmail: Option<string>, issue: Option<string>,
                 ticketId: Option<string>, nowMs: nat)
      ensures this.userId == userId && this.userEmail == userEmail && this.issue == issue
      ensures status == Models.Open && this.ticketId == ticketId && createdAt == nowMs
    {
      this.userId, this.userEmail, this.issue := userId, userEmail, issue;
      status := Models.Open;
      this.ticketId := ticketId;
      createdAt := nowMs;
    }

    /** The `required: true` validators: a user, an e-mail and an issue. */
    predicate HasRequiredFields()
      reads this
    {
      userId.Some? && Truthy(userEmail) && Truthy(issue)
    }

    /** The `pre('save')` hook: a reference is assigned only when none is set. */
    method PreSave(nowMs: nat)
      modifies this`ticketId
      ensures ticketId == Some(Models.AssignIfAbsent(old(ticketId), TicketRef(nowMs)))
      ensures Truthy(old(ticketId)) ==> ticketId == old(ticketId)
    {
      if !Truthy(ticketId) {
        ticketId := Some(TicketRef(nowMs));
      }
    }
  }
}
