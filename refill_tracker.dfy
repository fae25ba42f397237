/**
 * The refill page: it lists the reminders with refill tracking on, shows each one's
 * supply bar and low-supply flag, and adds a refill amount to a reminder's supply.
 */
module RefillTracker {
  import opened Wrappers
  import opened JsMath
  import opened Text
  import opened Reminders
  import ReminderStore

  /** The amount a refill form starts with and returns to after each submit. */
  const DefaultAmount := 30

  /** `isLow`: the supply is at or below the threshold, a missing value reading as 0. */
  predicate IsLow(r: Reminder) {
    OrZero(r.currentSupply) <= OrZero(r.alertAt)
  }

  /** `percentage`: 100 without a positive threshold, else supply / threshold · 30, capped at 100. */
  function Percentage(r: Reminder): (p: real)
    ensures OrZero(r.alertAt) <= 0 ==> p == 100.0
    ensures OrZero(r.alertAt) > 0 ==>
      var ratio := OrZero(r.currentSupply) as real / OrZero(r.alertAt) as real * 30.0;
      p <= 100.0 && p <= ratio && (p == 100.0 || p == ratio)
    ensures OrZero(r.currentSupply) >= 0 ==> 0.0 <= p <= 100.0
  {
    var currentSupply := OrZero(r.currentSupply);
    var alertAt := OrZero(r.alertAt);
    if alertAt > 0 then MinReal(100.0, currentSupply as real / alertAt as real * 30.0) else 100.0
  }

  /** A low reminder with a positive threshold shows at most 30 per cent. */
  lemma LowShowsAtMostThirty(r: Reminder)
    requires IsLow(r) && OrZero(r.alertAt) > 0
    ensures Percentage(r) <= 30.0
  {
    var s, a := OrZero(r.currentSupply) as real, OrZero(r.alertAt) as real;
    assert s / a <= 1.0 by {
      assert s <= a;
    }
  }

  /** An accepted amount: a number, and positive. */
  predicate ValidAmount(amount: Option<int>) {
    amount.Some? && amount.value > 0
  }

  /** The record `handleRefill` writes: only the supply changes, to `(currentSupply || 0) + amount`. */
  function Refilled(r: Reminder, amount: int): (out: Reminder)
    ensures out.currentSupply == Some(OrZero(r.currentSupply) + amount)
    ensures out.(currentSupply := r.currentSupply) == r
  {
    r.(currentSupply := Some(OrZero(r.currentSupply) + amount))
  }

  /** A positive refill raises the supply strictly, and it leaves the reminder's id for the store to match. */
  lemma {:induction false} RefillRaisesSupply(rs: seq<Reminder>, k: nat, amount: int)
    requires UniqueIds(rs) && k < |rs| && amount > 0
    ensures var out := ReplaceById(rs, Refilled(rs[k], amount));
      out[k].currentSupply.Some? && out[k].currentSupply.value > OrZero(rs[k].currentSupply) &&
      forall i :: 0 <= i < |rs| && i != k ==> out[i] == rs[i]
  {
    var out := ReplaceById(rs, Refilled(rs[k], amount));
    assert out[k] == Refilled(rs[k], amount);
  }

  /**
   * `handleRefill(reminder, amount)`: a missing (NaN) or non-positive amount is refused and
   * nothing changes; otherwise the store replaces the reminder by its refilled copy.
   */
  method HandleRefill(store: ReminderStore.Store, reminder: Reminder, amount: Option<int>) returns (accepted: bool)
    modifies store
    ensures accepted <==> ValidAmount(amount)
    ensures !accepted ==> store.reminders == old(store.reminders)
    ensures accepted ==> store.reminders == ReplaceById(old(store.reminders), Refilled(reminder, amount.value))
    ensures store.history == old(store.history)
  {
    if amount.None? || amount.value <= 0 {
      return false;
    }
    var newSupply := OrZero(reminder.currentSupply) + amount.value;
    store.UpdateReminder(reminder.(currentSupply := Some(newSupply)));
    accepted := true;
  }

  /** The refill form of one listed reminder; `amount` is None while the field does not parse. */
  class RefillForm {
    const reminder: Reminder
    var amount: Option<int>

    constructor (r: Reminder)
      ensures reminder == r && amount == Some(DefaultAmount)
    {
      reminder := r;
      amount := Some(DefaultAmount);
    }

    /** `onChange`: the field's text read with `parseInt`; NaN is None. */
    method SetAmount(text: string)
      modifies this
      ensures amount == ParseInt(text)
    {
      amount := ParseInt(text);
    }

    /** `handleSubmit`: the amount goes to `handleRefill`, and the field goes back to 30 in every case. */
    method HandleSubmit(store: ReminderStore.Store) returns (accepted: bool)
      modifies this, store
      ensures amount == Some(DefaultAmount)
      ensures accepted <==> ValidAmount(old(amount))
      ensures accepted ==> store.reminders == ReplaceById(old(store.reminders), Refilled(reminder, old(amount).value))
      ensures !accepted ==> store.reminders == old(store.reminders)
      ensures store.history == old(store.history)
    {
      accepted := HandleRefill(store, reminder, amount);
      amount := Some(DefaultAmount);
    }
  }
}
