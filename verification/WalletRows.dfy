/** The wallet table and its four guarded UPDATE statements. */
module WalletRows {
  import opened Common

  type BusinessId = nat

  /** One row of business_wallets; amounts are integer kobo. */
  datatype Wallet = Wallet(balance: int, locked: int)

  /** A statement is sent to the database and may not come back clean:
      `Refused` is an error that changed nothing, `Torn` an UPDATE that took effect
      but whose follow-up SELECT failed, so the caller is told it failed. */
  datatype Fault = Clean | Refused | Torn

  datatype Statement =
    | Increment(amount: int)
    | DecrementBoth(debit: int, release: int)
    | Lock(amount: int)
    | Unlock(amount: int)

  /** The WHERE clause, on a row that exists. */
  predicate Matches(w: Wallet, st: Statement)
  {
    match st
    case Increment(_) => true
    case DecrementBoth(debit, _) => w.balance >= debit
    case Lock(amount) => w.balance - w.locked >= amount
    case Unlock(_) => true
  }

  /** The SET clause. */
  function Changed(w: Wallet, st: Statement): Wallet
  {
    match st
    case Increment(amount) => w.(balance := w.balance + amount)
    case DecrementBoth(debit, release) => Wallet(w.balance - debit, Max(w.locked - release, 0))
    case Lock(amount) => w.(locked := w.locked + amount)
    case Unlock(amount) => w.(locked := Max(w.locked - amount, 0))
  }

  /** Whether the statement changes the row of `b`. */
  predicate Applies(rows: map<BusinessId, Wallet>, b: BusinessId, st: Statement, fault: Fault)
  {
    !fault.Refused? && b in rows && Matches(rows[b], st)
  }

  /** The table afterwards and the wallet handed back, if any. */
  function Execute(rows: map<BusinessId, Wallet>, b: BusinessId, st: Statement, fault: Fault)
    : (map<BusinessId, Wallet>, Option<Wallet>)
  {
    if !Applies(rows, b, st, fault) then (rows, None)
    else
      var after := Changed(rows[b], st);
      (rows[b := after], if fault.Torn? then None else Some(after))
  }

  /** The repository: each method is one UPDATE followed by one SELECT. */
  class WalletRepository {
    var rows: map<BusinessId, Wallet>

    constructor (rows: map<BusinessId, Wallet>)
      ensures this.rows == rows
    {
      this.rows := rows;
    }

    method FindByBusinessID(b: BusinessId, fault: Fault) returns (w: Option<Wallet>)
      ensures w.Some? <==> fault.Clean? && b in rows
      ensures w.Some? ==> w.value == rows[b]
    {
      if fault.Clean? && b in rows {
        return Some(rows[b]);
      }
      return None;
    }

    method IncrementBalance(b: BusinessId, amount: int, fault: Fault) returns (w: Option<Wallet>)
      modifies this
      ensures (rows, w) == Execute(old(rows), b, Increment(amount), fault)
    {
      if fault.Refused? || b !in rows {
        return None;
      }
      rows := rows[b := rows[b].(balance := rows[b].balance + amount)];
      w := FindByBusinessID(b, if fault.Torn? then Refused else Clean);
    }

    method DecrementBalanceAndLocked(b: BusinessId, debit: int, release: int, fault: Fault)
      returns (w: Option<Wallet>)
      modifies this
      ensures (rows, w) == Execute(old(rows), b, DecrementBoth(debit, release), fault)
    {
      if fault.Refused? || b !in rows || rows[b].balance < debit {
        return None;
      }
      var remaining := if rows[b].locked - release > 0 then rows[b].locked - release else 0;
      rows := rows[b := Wallet(rows[b].balance - debit, remaining)];
      w := FindByBusinessID(b, if fault.Torn? then Refused else Clean);
    }

    method IncrementLocked(b: BusinessId, amount: int, fault: Fault) returns (w: Option<Wallet>)
      modifies this
      ensures (rows, w) == Execute(old(rows), b, Lock(amount), fault)
    {
      if fault.Refused? || b !in rows || rows[b].balance - rows[b].locked < amount {
        return None;
      }
      rows := rows[b := rows[b].(locked := rows[b].locked + amount)];
      w := FindByBusinessID(b, if fault.Torn? then Refused else Clean);
    }

    method DecrementLocked(b: BusinessId, amount: int, fault: Fault) returns (w: Option<Wallet>)
      modifies this
      ensures (rows, w) == Execute(old(rows), b, Unlock(amount), fault)
    {
      if fault.Refused? || b !in rows {
        return None;
      }
      var remaining := if rows[b].locked - amount > 0 then rows[b].locked - amount else 0;
      rows := rows[b := rows[b].(locked := remaining)];
      w := FindByBusinessID(b, if fault.Torn? then Refused else Clean);
    }
  }

  /** Every successful statement keeps a sound row sound, except taking money from
      under a reservation: exactly those statements are named on the right. */
  lemma StatementKeepsRowSound(w: Wallet, st: Statement)
    requires 0 <= w.locked <= w.balance && Matches(w, st)
    requires st.DecrementBoth? ==> 0 <= st.release && 0 <= st.debit
    requires st.Lock? ==> 0 <= st.amount
    requires st.Unlock? ==> 0 <= st.amount
    ensures var v := Changed(w, st);
            (0 <= v.locked <= v.balance <==>
             match st
             case Increment(amount) => -amount <= w.balance - w.locked
             case DecrementBoth(debit, release) => debit - Min(release, w.locked) <= w.balance - w.locked
             case Lock(_) => true
             case Unlock(_) => true)
  {
  }
}
