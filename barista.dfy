/**
 * The barista agent's live order and its two tools, `update_order` and
 * `finish_order` (backend/src/agent.py). The module-level dictionary of the
 * agent becomes one object whose fields the tools assign in place.
 */
module Barista {
  import opened Wrappers
  import opened OrderRecord

  /** The value `finish_order` returns when the order is not complete. */
  const IncompleteError: string := "Order is not complete yet."

  /** The data-channel topic and the payload's type tag of a completed order. */
  const CompleteTopic: string := "order_complete"
  const CompleteKind: string := "order_complete"

  /** One message handed to the data channel: topic, delivery mode and payload. */
  datatype Notification = Notification(topic: string, reliable: bool, kind: string, order: Order)

  /**
   * What a `finish_order` call ends in: the completed snapshot, the error
   * result for an incomplete order, or the exception that the save or the
   * send raised and that propagates to the caller.
   */
  datatype FinishResult =
    | Finished(order: Order)
    | NotComplete(error: string)
    | SaveFailed
    | SendFailed

  class OrderState {
    var drinkType: Option<string>
    var size: Option<string>
    var milk: Option<string>
    var extras: seq<string>
    var name: Option<string>

    /** The one stored order file: every save overwrites it. */
    var lastSaved: Option<Order>
    /** The notifications delivered so far, in order. */
    ghost var sent: seq<Notification>

    /** The live record as a value. */
    function Current(): Order
      reads this
    {
      Order(drinkType, size, milk, extras, name)
    }

    /** The record at program start; `saved` is whatever the order file already holds. */
    constructor (saved: Option<Order>)
      ensures Current() == Empty && WellFormed(Current())
      ensures lastSaved == saved && sent == []
    {
      drinkType, size, milk, extras, name := None, None, None, [], None;
      lastSaved := saved;
      sent := [];
    }

    /**
     * Store every truthy argument, append a non-empty extras list, and return
     * the resulting record. Nothing is saved or sent.
     */
    method UpdateOrder(u: Update) returns (state: Order)
      modifies this
      ensures Current() == Apply(old(Current()), u)
      ensures state == Current()
      ensures lastSaved == old(lastSaved) && sent == old(sent)
      ensures WellFormed(old(Current())) ==> WellFormed(Current())
    {
      ghost var before := Current();
      if Supplied(u.drinkType) {
        drinkType := u.drinkType;
      }
      if Supplied(u.size) {
        size := u.size;
      }
      if Supplied(u.milk) {
        milk := u.milk;
      }
      if u.extras.Some? && u.extras.value != [] {
        extras := extras + u.extras.value;
      }
      if Supplied(u.name) {
        name := u.name;
      }
      state := Current();
      assert state == Apply(before, u);
      assert WellFormed(before) ==> WellFormed(state) by {
        ApplyEffect(before, u);
      }
    }

    /**
     * Complete the order: when it is complete, save it, send it, and reset the
     * record, returning the pre-reset snapshot. `saveSucceeds` and
     * `sendSucceeds` stand for the outcomes of the file write and of the
     * data-channel send; a failure stops the call where the exception is raised.
     */
    method FinishOrder(saveSucceeds: bool, sendSucceeds: bool) returns (r: FinishResult)
      modifies this
      // An incomplete order: the error result, and nothing saved, sent or reset.
      ensures !IsComplete(old(Current())) ==>
        r == NotComplete(IncompleteError) &&
        Current() == old(Current()) && lastSaved == old(lastSaved) && sent == old(sent)
      // The save fails: nothing else happens.
      ensures IsComplete(old(Current())) && !saveSucceeds ==>
        r == SaveFailed &&
        Current() == old(Current()) && lastSaved == old(lastSaved) && sent == old(sent)
      // The send fails: the order is already saved, but the record is not reset.
      ensures IsComplete(old(Current())) && saveSucceeds && !sendSucceeds ==>
        r == SendFailed &&
        lastSaved == Some(old(Current())) && Current() == old(Current()) && sent == old(sent)
      // Success: saved, sent and returned record all equal the pre-call record,
      // and the live record starts over empty.
      ensures IsComplete(old(Current())) && saveSucceeds && sendSucceeds ==>
        r == Finished(old(Current())) &&
        lastSaved == Some(old(Current())) &&
        sent == old(sent) + [Notification(CompleteTopic, true, CompleteKind, old(Current()))] &&
        Current() == Empty
      ensures WellFormed(old(Current())) ==> WellFormed(Current())
    {
      if IsComplete(Current()) {
        if !saveSucceeds {
          r := SaveFailed;
          return;
        }
        lastSaved := Some(Current());
        var payload := Notification(CompleteTopic, true, CompleteKind, Current());
        if !sendSucceeds {
          r := SendFailed;
          return;
        }
        sent := sent + [payload];
        var final := Current();
        drinkType, size, milk, extras, name := None, None, None, [], None;
        r := Finished(final);
        return;
      }
      r := NotComplete(IncompleteError);
    }
  }

  /**
   * One conversation as the agent sees it: four updates, one completion, and a
   * second completion attempt on the fresh record.
   */
  method LatteConversation()
  {
    var agent := new OrderState(None);
    var s := agent.UpdateOrder(Update(Some("latte"), None, None, None, None));
    s := agent.UpdateOrder(Update(None, Some("medium"), Some("oat"), None, None));
    s := agent.UpdateOrder(Update(None, None, None, Some(["vanilla syrup"]), None));
    s := agent.UpdateOrder(Update(None, Some(""), None, None, Some("Ana")));
    var expected := Order(Some("latte"), Some("medium"), Some("oat"), ["vanilla syrup"], Some("Ana"));
    assert s == expected;
    var r := agent.FinishOrder(true, true);
    assert r == Finished(expected);
    assert agent.lastSaved == Some(expected);
    assert agent.Current() == Empty;
    r := agent.FinishOrder(true, true);
    assert r == NotComplete(IncompleteError);
    assert agent.lastSaved == Some(expected);
  }
}
