// The promo-code ledger of bot.py (`process_promo_code`): two worksheets, a
// redemption history of (user id, code, time) rows and a table giving each
// code its remaining number of uses.
module Promo {
  import opened Text

  /** The strings `process_promo_code` returns. */
  datatype Status = Ok | Used | Limit | NotFound | Error

  /** The third column of a code's row, as Python's `int()` reads it: an empty
      cell, a whole number, or text `int()` rejects. */
  datatype LimitCell = Blank | Count(n: int) | Unparsable

  datatype HistoryRow = HistoryRow(userId: string, code: string, time: string)

  /** Where talking to the spreadsheet fails, if it does: before anything is
      written (no credentials file, a failed read or a failed `update_cell`),
      or at `append_row`, after the limit has already been decremented. */
  datatype Fault = NoFault | StoreDown | AppendFails

  datatype Ledger = Ledger(history: seq<HistoryRow>, limits: map<string, LimitCell>)

  datatype Redemption = Redemption(status: Status, after: Ledger)

  /** `int(v) if v else 0` for a cell `int()` accepts. */
  function ReadLimit(cell: LimitCell): int {
    match cell
    case Count(n) => n
    case _ => 0
  }

  /** A history row records this user's use of this code, letters compared
      after upper-casing. */
  predicate SameRedemption(row: HistoryRow, userId: string, code: string) {
    row.userId == userId && Upper(row.code) == Upper(code)
  }

  predicate UsedBefore(history: seq<HistoryRow>, userId: string, code: string) {
    exists i :: 0 <= i < |history| && SameRedemption(history[i], userId, code)
  }

  /** What one call of `process_promo_code(code, user_id)` returns and leaves
      behind, checking in the source's order: an empty code, the user's
      history, the code's row, its limit. */
  function Redeem(l: Ledger, code: string, userId: string, now: string, fault: Fault): Redemption {
    if code == "" then Redemption(NotFound, l)
    else if fault == StoreDown then Redemption(Error, l)
    else if UsedBefore(l.history, userId, code) then Redemption(Used, l)
    else if code !in l.limits then Redemption(NotFound, l)
    else if l.limits[code].Unparsable? then Redemption(Error, l)
    else
      var limit := ReadLimit(l.limits[code]);
      if limit <= 0 then Redemption(Limit, l)
      else
        var decremented := l.limits[code := Count(limit - 1)];
        if fault == AppendFails then Redemption(Error, l.(limits := decremented))
        else Redemption(Ok, Ledger(l.history + [HistoryRow(userId, code, now)], decremented))
  }

  /** The two worksheets, updated in place by `process_promo_code`. */
  class PromoSheets {
    var history: seq<HistoryRow>
    var limits: map<string, LimitCell>

    constructor (history0: seq<HistoryRow>, limits0: map<string, LimitCell>)
      ensures history == history0 && limits == limits0
    {
      history := history0;
      limits := limits0;
    }

    function State(): Ledger
      reads this
    {
      Ledger(history, limits)
    }

    method ProcessPromoCode(code: string, userId: string, now: string, fault: Fault) returns (status: Status)
      modifies this
      ensures Redemption(status, State()) == Redeem(old(State()), code, userId, now, fault)
    {
      if code == "" {
        return NotFound;
      }
      if fault == StoreDown {
        return Error;
      }
      var i := 0;
      while i < |history|
        invariant 0 <= i <= |history|
        invariant forall j :: 0 <= j < i ==> !SameRedemption(history[j], userId, code)
      {
        if history[i].userId == userId && Upper(history[i].code) == Upper(code) {
          return Used;
        }
        i := i + 1;
      }
      if code !in limits {
        return NotFound;
      }
      var cell := limits[code];
      if cell.Unparsable? {
        return Error;
      }
      var limit := if cell.Count? then cell.n else 0;
      if limit > 0 {
        limits := limits[code := Count(limit - 1)];
        if fault == AppendFails {
          return Error;
        }
        history := history + [HistoryRow(userId, code, now)];
        return Ok;
      } else {
        return Limit;
      }
    }
  }

  // ---------------------------------------------------------------------------
  // One call

  /** An empty code is turned away before the spreadsheet is opened. */
  lemma EmptyCodeNotFound(l: Ledger, userId: string, now: string, fault: Fault)
    ensures Redeem(l, "", userId, now, fault) == Redemption(NotFound, l)
  {
  }

  /** A user who already has a row for the code (any letter case) gets `USED`
      with nothing written, whether or not the code is still in the table. */
  lemma UsedComesFirst(l: Ledger, code: string, userId: string, now: string, fault: Fault, i: nat)
    requires code != "" && fault != StoreDown
    requires i < |l.history| && l.history[i].userId == userId && Upper(l.history[i].code) == Upper(code)
    ensures Redeem(l, code, userId, now, fault) == Redemption(Used, l)
  {
  }

  /** `NOT_FOUND`, `USED` and `LIMIT` write nothing; `ERROR` writes nothing
      unless the failure came at the history append. */
  lemma RefusalsWriteNothing(l: Ledger, code: string, userId: string, now: string, fault: Fault)
    ensures Redeem(l, code, userId, now, fault).status in {NotFound, Used, Limit} ==>
              Redeem(l, code, userId, now, fault).after == l
    ensures fault != AppendFails && Redeem(l, code, userId, now, fault).status == Error ==>
              Redeem(l, code, userId, now, fault).after == l
  {
  }

  /** `LIMIT` exactly for a known, readable code whose free uses are gone
      (an empty cell counts as none left) and that this user has not used. */
  lemma LimitIff(l: Ledger, code: string, userId: string, now: string, fault: Fault)
    ensures Redeem(l, code, userId, now, fault).status == Limit <==>
      code != "" && fault != StoreDown && !UsedBefore(l.history, userId, code)
      && code in l.limits && (l.limits[code].Blank? || (l.limits[code].Count? && l.limits[code].n <= 0))
  {
  }

  /** `OK` exactly when every check passes and nothing fails; then the code's
      limit is one less, one row is appended, and nothing else changes. */
  lemma OkIff(l: Ledger, code: string, userId: string, now: string, fault: Fault)
    ensures var r := Redeem(l, code, userId, now, fault);
      r.status == Ok <==>
        code != "" && fault == NoFault && !UsedBefore(l.history, userId, code)
        && code in l.limits && l.limits[code].Count? && l.limits[code].n > 0
    ensures var r := Redeem(l, code, userId, now, fault);
      r.status == Ok ==>
        && r.after.history == l.history + [HistoryRow(userId, code, now)]
        && r.after.limits.Keys == l.limits.Keys
        && r.after.limits[code] == Count(l.limits[code].n - 1)
        && (forall c :: c in l.limits && c != code ==> r.after.limits[c] == l.limits[c])
  {
  }

  /** The ledger can only lower a limit that is positive, so the value it
      writes is never negative. */
  ghost predicate NoNegativeLimit(limits: map<string, LimitCell>) {
    forall c :: c in limits && limits[c].Count? ==> limits[c].n >= 0
  }

  lemma LimitStaysNonNegative(l: Ledger, code: string, userId: string, now: string, fault: Fault)
    requires NoNegativeLimit(l.limits)
    ensures NoNegativeLimit(Redeem(l, code, userId, now, fault).after.limits)
  {
  }

  /** After `OK`, the same user presenting the same code again, in any
      letter case, gets `USED` and the limit is not touched again. */
  lemma NoDoubleRedemption(l: Ledger, code: string, again: string, userId: string,
                           now: string, later: string, fault: Fault)
    requires Redeem(l, code, userId, now, NoFault).status == Ok
    requires again != "" && Upper(again) == Upper(code) && fault != StoreDown
    ensures var l' := Redeem(l, code, userId, now, NoFault).after;
      Redeem(l', again, userId, later, fault) == Redemption(Used, l')
  {
    var l' := Redeem(l, code, userId, now, NoFault).after;
    assert SameRedemption(l'.history[|l.history|], userId, again);
  }

  /** No two history rows record the same user and code (up to letter case). */
  ghost predicate OncePerUser(history: seq<HistoryRow>) {
    forall i, j :: 0 <= i < j < |history| ==> !SameRedemption(history[j], history[i].userId, history[i].code)
  }

  lemma RedeemKeepsOncePerUser(l: Ledger, code: string, userId: string, now: string, fault: Fault)
    requires OncePerUser(l.history)
    ensures OncePerUser(Redeem(l, code, userId, now, fault).after.history)
  {
    var r := Redeem(l, code, userId, now, fault);
    if r.status == Ok {
      var h := r.after.history;
      forall i, j | 0 <= i < j < |h| ensures !SameRedemption(h[j], h[i].userId, h[i].code) {
        if j == |l.history| {
          assert !SameRedemption(l.history[i], userId, code);
        }
      }
    }
  }

  // ---------------------------------------------------------------------------
  // Many calls, one after another

  datatype Call = Call(code: string, userId: string, now: string, fault: Fault)

  function RunAll(l: Ledger, calls: seq<Call>): Ledger
    decreases |calls|
  {
    if calls == [] then l
    else RunAll(Redeem(l, calls[0].code, calls[0].userId, calls[0].now, calls[0].fault).after, calls[1..])
  }

  /** The number of rows that redeemed exactly the table entry `c`. */
  function RowsFor(rows: seq<HistoryRow>, c: string): nat
    decreases |rows|
  {
    if rows == [] then 0
    else RowsFor(rows[..|rows| - 1], c) + (if rows[|rows| - 1].code == c then 1 else 0)
  }

  lemma {:induction false} RowsForAppend(a: seq<HistoryRow>, b: seq<HistoryRow>, c: string)
    ensures RowsFor(a + b, c) == RowsFor(a, c) + RowsFor(b, c)
    decreases |b|
  {
    if b == [] {
      assert a + b == a;
    } else {
      RowsForAppend(a, b[..|b| - 1], c);
      assert (a + b)[..|a + b| - 1] == a + b[..|b| - 1];
    }
  }

  /** One call: the history only grows, the codes stay the same, and every
      use it takes from a code is written down as one row for that code,
      unless the failure came at the append. */
  lemma {:induction false} RedeemAccounts(l: Ledger, call: Call)
    requires call.fault != AppendFails
    ensures var l' := Redeem(l, call.code, call.userId, call.now, call.fault).after;
      && |l.history| <= |l'.history| && l'.history[..|l.history|] == l.history
      && l'.limits.Keys == l.limits.Keys
      && forall c :: c in l.limits ==>
           ReadLimit(l'.limits[c]) + RowsFor(l'.history[|l.history|..], c) == ReadLimit(l.limits[c])
  {
    var r := Redeem(l, call.code, call.userId, call.now, call.fault);
    var l' := r.after;
    if r.status == Ok {
      var row := HistoryRow(call.userId, call.code, call.now);
      assert l'.history[|l.history|..] == [row];
      assert RowsFor([row], call.code) == 1;
      forall c | c in l.limits && c != call.code ensures RowsFor([row], c) == 0 { }
    } else {
      assert l'.history[|l.history|..] == [];
    }
  }

  /** Over any sequence of calls in which no append fails, each code's
      remaining uses fall by exactly the number of history rows added for it,
      and the rows already there are kept. */
  lemma {:induction false} UsesAreAccountedFor(l: Ledger, calls: seq<Call>)
    requires forall k :: 0 <= k < |calls| ==> calls[k].fault != AppendFails
    ensures var fin := RunAll(l, calls);
      && |l.history| <= |fin.history| && fin.history[..|l.history|] == l.history
      && fin.limits.Keys == l.limits.Keys
      && forall c :: c in l.limits ==>
           ReadLimit(fin.limits[c]) + RowsFor(fin.history[|l.history|..], c) == ReadLimit(l.limits[c])
    decreases |calls|
  {
    if calls != [] {
      var mid := Redeem(l, calls[0].code, calls[0].userId, calls[0].now, calls[0].fault).after;
      RedeemAccounts(l, calls[0]);
      UsesAreAccountedFor(mid, calls[1..]);
      var fin := RunAll(l, calls);
      assert fin == RunAll(mid, calls[1..]);
      assert fin.history[..|l.history|] == mid.history[..|mid.history|][..|l.history|];
      forall c | c in l.limits
        ensures ReadLimit(fin.limits[c]) + RowsFor(fin.history[|l.history|..], c) == ReadLimit(l.limits[c])
      {
        assert fin.history[|l.history|..] == mid.history[|l.history|..] + fin.history[|mid.history|..];
        RowsForAppend(mid.history[|l.history|..], fin.history[|mid.history|..], c);
      }
    }
  }

  /** A failure at `append_row` leaves the limit decremented with no row to
      show for it: the use is lost from the accounting above. */
  lemma AppendFailureLosesAUse(l: Ledger, code: string, userId: string, now: string)
    requires code != "" && !UsedBefore(l.history, userId, code)
    requires code in l.limits && l.limits[code].Count? && l.limits[code].n > 0
    ensures var r := Redeem(l, code, userId, now, AppendFails);
      && r.status == Error
      && r.after.history == l.history
      && ReadLimit(r.after.limits[code]) == ReadLimit(l.limits[code]) - 1
  {
  }

  /** A code with one use left: the first user gets it, the same user asking
      again in lower case is refused as a repeat, and a second user finds the
      limit spent. */
  lemma LastUseScenario()
    ensures var l0 := Ledger([], map["WELCOME10" := Count(1)]);
      var r1 := Redeem(l0, "WELCOME10", "101", "2024-05-01 10:00:00", NoFault);
      var r2 := Redeem(r1.after, "welcome10", "101", "2024-05-01 10:05:00", NoFault);
      var r3 := Redeem(r2.after, "WELCOME10", "202", "2024-05-01 10:06:00", NoFault);
      && r1.status == Ok && r2.status == Used && r3.status == Limit
      && r3.after == r1.after && r1.after.limits["WELCOME10"] == Count(0)
  {
    var l0 := Ledger([], map["WELCOME10" := Count(1)]);
    var r1 := Redeem(l0, "WELCOME10", "101", "2024-05-01 10:00:00", NoFault);
    assert r1.status == Ok;
    assert SameRedemption(r1.after.history[0], "101", "welcome10");
  }
}
