/**
 * The state-changing routes of app.py over the bill and settlement tables:
 * creating a bill (add_bill), toggling one participant's settlement
 * (settle_individual), toggling a whole bill (toggle_settlement) and editing
 * a bill (edit_bill). The caller's identity is a parameter; a refused request
 * leaves the tables untouched and reports why.
 */
module Store {
  import opened Wrappers
  import Participants
  import opened Bills

  /** How a request ends: done, or the response it is refused with (404, 403, a raised ValueError, 400). */
  datatype Outcome = Done | NotFound | Forbidden | Malformed | NotParticipant

  /**
   * The `is_settled` column agrees with the rows whenever some participant
   * other than the payer resolves to a user. (For a bill whose only
   * resolvable participant is the payer it can differ from
   * check_fully_settled(): see Bills.PayerOnlyIsFullySettled.)
   */
  ghost predicate FlagInSync(b: Bill, users: Users, s: Settlements)
  {
    HasDebtor(b, users) ==> (b.isSettled <==> AllPaid(b, users, s))
  }

  /** A flag in sync is what check_fully_settled() computes. */
  lemma InSyncIsChecked(b: Bill, users: Users, s: Settlements)
    requires HasDebtor(b, users)
    ensures FlagInSync(b, users, s) <==> CheckFullySettled(b, users, s) == Some(b.isSettled)
  {
    FullySettledIffAllPaid(b, users, s);
    var u :| u in Ids(b).value && u in users && u != b.payer;
  }

  /** Deleting the row for `k` if there is one, else adding it with `amount`. */
  function Toggle(s: Settlements, k: (int, int), amount: int): (r: Settlements)
    ensures k in r <==> k !in s
    ensures k in r ==> r[k] == amount
    ensures forall k' :: k' != k ==> (k' in r <==> k' in s)
    ensures forall k' :: k' != k && k' in r ==> r[k'] == s[k']
  {
    if k in s then s - {k} else s[k := amount]
  }

  /** Toggling the same row twice gives the table back, provided an existing row holds the amount re-added. */
  lemma ToggleTwice(s: Settlements, k: (int, int), amount: int)
    requires k in s ==> s[k] == amount
    ensures Toggle(Toggle(s, k, amount), k, amount) == s
  {
    var r := Toggle(Toggle(s, k, amount), k, amount);
    assert r.Keys == s.Keys;
  }

  /** `Settlement.query.filter_by(bill_id=bid).delete()`. */
  function ClearRows(s: Settlements, bid: int): (r: Settlements)
    ensures forall k :: k in r <==> k in s && k.0 != bid
    ensures forall k :: k in r ==> r[k] == s[k]
  {
    map k | k in s && k.0 != bid :: s[k]
  }

  /**
   * What the whole-bill toggle does to the table when it marks `bid` paid:
   * every listed participant other than the payer ends with a row, rows that
   * existed keep their amount, new rows hold the split, and nothing else
   * changes.
   */
  ghost predicate SettledAll(s0: Settlements, s1: Settlements, bid: int, ids: seq<int>, payer: int, split: int)
  {
    && (forall k :: k in s1 <==> k in s0 || (k.0 == bid && k.1 in ids && k.1 != payer))
    && (forall k :: k in s0 ==> s1[k] == s0[k])
    && (forall k :: k in s1 && k !in s0 ==> s1[k] == split)
  }

  /** Two versions of a bill that differ only in flag or description split, resolve and count as paid alike. */
  lemma SameShape(b1: Bill, b2: Bill, users: Users, s: Settlements)
    requires b1.id == b2.id && b1.payer == b2.payer && b1.amount == b2.amount && b1.participants == b2.participants
    ensures SplitAmount(b1) == SplitAmount(b2)
    ensures HasDebtor(b1, users) == HasDebtor(b2, users)
    ensures HasResolvable(b1, users) == HasResolvable(b2, users)
    ensures AllPaid(b1, users, s) == AllPaid(b2, users, s)
  {
  }

  /** The status of a bill does not depend on its cached flag or its description. */
  lemma StatusIgnoresFlag(b1: Bill, b2: Bill, users: Users, s: Settlements)
    requires b1.id == b2.id && b1.payer == b2.payer && b1.amount == b2.amount && b1.participants == b2.participants
    ensures SettlementStatus(b1, users, s) == SettlementStatus(b2, users, s)
  {
    if Ids(b1).Some? {
      var ids := Ids(b1).value;
      var split := Split(b1.amount, |ids|);
      var rows := RowsOf(s, b1.id);
      assert StatusEntries(b1, ids, users, split, rows) == StatusEntries(b2, ids, users, split, rows);
    }
  }

  /** A bill with a debtor and no rows at all is not paid. */
  lemma NoRowsNotPaid(b: Bill, users: Users, s: Settlements)
    requires HasDebtor(b, users)
    requires forall u :: (b.id, u) !in s
    ensures !AllPaid(b, users, s)
  {
    var u :| u in Ids(b).value && u in users && u != b.payer;
    assert (b.id, u) !in s;
  }

  /** Every settlement row belongs to a stored bill and holds that bill's current split. */
  ghost predicate RowsMatch(bills: map<int, Bill>, s: Settlements)
  {
    forall k :: k in s ==> k.0 in bills && SplitAmount(bills[k.0]) == Some(s[k])
  }

  /** Every stored bill's flag is in sync with the rows. */
  ghost predicate FlagsInSync(bills: map<int, Bill>, users: Users, s: Settlements)
  {
    forall id :: id in bills ==> FlagInSync(bills[id], users, s)
  }

  /**
   * Replacing bill `bid` and changing only its rows keeps the rows matching
   * and the flags in sync, once the new bill's own rows and flag are right.
   */
  lemma ReplaceBill(bills: map<int, Bill>, users: Users, s0: Settlements, s1: Settlements, bid: int, nb: Bill)
    requires forall id :: id in bills ==> bills[id].id == id
    requires RowsMatch(bills, s0) && FlagsInSync(bills, users, s0)
    requires bid in bills && nb.id == bid
    requires forall k: (int, int) :: k.0 != bid ==> (k in s1 <==> k in s0)
    requires forall k: (int, int) :: k.0 != bid && k in s0 ==> s1[k] == s0[k]
    requires forall k: (int, int) :: k in s1 && k.0 == bid ==> SplitAmount(nb) == Some(s1[k])
    requires FlagInSync(nb, users, s1)
    ensures RowsMatch(bills[bid := nb], s1)
    ensures FlagsInSync(bills[bid := nb], users, s1)
  {
    forall id | id in bills && id != bid
      ensures FlagInSync(bills[id], users, s1)
    {
      var b := bills[id];
      assert AllPaid(b, users, s0) <==> AllPaid(b, users, s1);
    }
  }

  /**
   * The ledger invariant on the tables' values: bills are stored under their
   * own ids, below the next id, with known payers; the id order lists each
   * stored bill once; rows match their bills and flags are in sync.
   */
  ghost predicate Inv(users: Users, bills: map<int, Bill>, order: seq<int>, nextId: int, s: Settlements)
  {
    && (forall id :: id in bills ==> bills[id].id == id && id < nextId && bills[id].payer in users)
    && (forall i, j :: 0 <= i < j < |order| ==> order[i] != order[j])
    && (forall i :: 0 <= i < |order| ==> order[i] in bills)
    && (forall id :: id in bills ==> id in order)
    && RowsMatch(bills, s)
    && FlagsInSync(bills, users, s)
  }

  /** Replacing a stored bill by one with the same id and payer, and changing only its rows, keeps the invariant. */
  lemma ReplaceKeeps(users: Users, bills: map<int, Bill>, order: seq<int>, nextId: int,
                     s0: Settlements, s1: Settlements, bid: int, nb: Bill)
    requires Inv(users, bills, order, nextId, s0)
    requires bid in bills && nb.id == bid && nb.payer == bills[bid].payer
    requires forall k: (int, int) :: k.0 != bid ==> (k in s1 <==> k in s0)
    requires forall k: (int, int) :: k.0 != bid && k in s0 ==> s1[k] == s0[k]
    requires forall k: (int, int) :: k in s1 && k.0 == bid ==> SplitAmount(nb) == Some(s1[k])
    requires FlagInSync(nb, users, s1)
    ensures Inv(users, bills[bid := nb], order, nextId, s1)
  {
    ReplaceBill(bills, users, s0, s1, bid, nb);
  }

  /** Storing a new unsettled bill under the next id, with a known payer, keeps the invariant. */
  lemma AddKeeps(users: Users, bills: map<int, Bill>, order: seq<int>, nextId: int, s: Settlements, b: Bill)
    requires Inv(users, bills, order, nextId, s)
    requires b.id == nextId && b.payer in users && !b.isSettled
    ensures Inv(users, bills[nextId := b], order + [nextId], nextId + 1, s)
  {
    if HasDebtor(b, users) {
      NoRowsNotPaid(b, users, s);
    }
    var bills' := bills[nextId := b];
    forall k | k in s
      ensures k.0 in bills' && SplitAmount(bills'[k.0]) == Some(s[k])
    {
      assert k.0 in bills && k.0 < nextId;
    }
  }

  /**
   * The loop of toggle_settlement over the listed participants: each one
   * other than the payer without a row gets one holding the split.
   */
  method AddMissingRows(s0: Settlements, bid: int, ids: seq<int>, payer: int, split: int) returns (rows: Settlements)
    ensures SettledAll(s0, rows, bid, ids, payer, split)
  {
    rows := s0;
    for i := 0 to |ids|
      invariant SettledAll(s0, rows, bid, ids[..i], payer, split)
    {
      var u := ids[i];
      assert ids[..i + 1] == ids[..i] + [u];
      if u != payer {
        if (bid, u) !in rows {
          rows := rows[(bid, u) := split];
        }
      }
    }
    assert ids[..|ids|] == ids;
  }

  class Ledger {
    /** The user table: id to display name. Users are created once, at start-up. */
    var users: Users
    var bills: map<int, Bill>
    /** The bill ids in the order the table returns them (insertion order). */
    var order: seq<int>
    var nextId: int
    var settlements: Settlements

    ghost predicate Valid()
      reads this
    {
      Inv(users, bills, order, nextId, settlements)
    }

    constructor (users: Users)
      ensures Valid()
      ensures this.users == users && bills == map[] && order == [] && settlements == map[]
    {
      this.users := users;
      bills := map[];
      order := [];
      nextId := 1;
      settlements := map[];
    }

    /** `Bill.query.all()`. */
    function AllBills(): (r: seq<Bill>)
      reads this
      requires Valid()
      ensures |r| == |order|
      ensures forall i :: 0 <= i < |r| ==> r[i] == bills[order[i]]
    {
      seq(|order|, i requires 0 <= i < |order| && order[i] in bills reads this => bills[order[i]])
    }

    /**
     * add_bill: a new bill with a fresh id, paid by the caller, whose
     * participants are the chosen ids with the payer's own id appended if it
     * was missing, flagged unsettled; no settlement row changes.
     */
    method AddBill(caller: int, amount: int, description: string, form: seq<string>) returns (id: int)
      requires Valid() && caller in users
      modifies this
      ensures Valid()
      ensures id == old(nextId) && id !in old(bills)
      ensures bills == old(bills)[id := Bill(id, caller, amount, description,
                                             Participants.Join(Participants.WithPayer(form, caller)), false)]
      ensures order == old(order) + [id]
      ensures settlements == old(settlements) && users == old(users)
    {
      var participants := if Participants.Str(caller) in form then form else form + [Participants.Str(caller)];
      id := nextId;
      var b := Bill(id, caller, amount, description, Participants.Join(participants), false);
      AddKeeps(users, bills, order, nextId, settlements, b);
      bills := bills[id := b];
      order := order + [id];
      nextId := nextId + 1;
    }

    /**
     * settle_individual: only the payer may toggle, only for a listed
     * participant (the payer included). An existing row for (bill, user) is
     * deleted, otherwise one is added holding the split; the bill's flag is
     * then recomputed with check_fully_settled(), which holds when some
     * participant resolves to a user and everyone else has paid
     * (Bills.FullySettledIffAllPaid).
     */
    method SettleIndividual(caller: int, billId: int, userId: int) returns (o: Outcome, userSettled: bool)
      requires Valid()
      modifies this
      ensures Valid()
      ensures users == old(users) && order == old(order) && nextId == old(nextId)
      ensures o == (if billId !in old(bills) || userId !in users then NotFound
                    else if caller != old(bills)[billId].payer then Forbidden
                    else if Ids(old(bills)[billId]).None? then Malformed
                    else if userId !in Ids(old(bills)[billId]).value then NotParticipant
                    else Done)
      ensures o != Done ==> bills == old(bills) && settlements == old(settlements)
      ensures o == Done ==>
        var b := old(bills)[billId];
        && settlements == Toggle(old(settlements), (billId, userId), SplitAmount(b).value)
        && userSettled == ((billId, userId) !in old(settlements))
        && bills == old(bills)[billId := b.(isSettled := HasResolvable(b, users) && AllPaid(b, users, settlements))]
    {
      userSettled := false;
      if billId !in bills || userId !in users {
        return NotFound, false;
      }
      var b := bills[billId];
      if caller != b.payer {
        return Forbidden, false;
      }
      var parsed := Ids(b);
      if parsed.None? {
        return Malformed, false;
      }
      if userId !in parsed.value {
        return NotParticipant, false;
      }
      userSettled := ToggleRow(billId, userId);
      o := Done;
    }

    /** The change settle_individual makes once its checks pass: toggle the row, recompute the flag. */
    method ToggleRow(billId: int, userId: int) returns (userSettled: bool)
      requires Valid() && billId in bills && SplitAmount(bills[billId]).Some?
      modifies this
      ensures Valid()
      ensures users == old(users) && order == old(order) && nextId == old(nextId)
      ensures
        var b := old(bills)[billId];
        && settlements == Toggle(old(settlements), (billId, userId), SplitAmount(b).value)
        && userSettled == ((billId, userId) !in old(settlements))
        && bills == old(bills)[billId := b.(isSettled := HasResolvable(b, users) && AllPaid(b, users, settlements))]
    {
      var b := bills[billId];
      var k := (billId, userId);
      userSettled := k !in settlements;
      var s1 := Toggle(settlements, k, SplitAmount(b).value);
      var checked := IsFullySettled(b, users, s1);
      var b' := b.(isSettled := checked.value);
      SameShape(b, b', users, s1);
      ReplaceKeeps(users, bills, order, nextId, settlements, s1, billId, b');
      settlements := s1;
      bills := bills[billId := b'];
    }

    /**
     * toggle_settlement: only the payer may toggle. A bill flagged settled
     * loses all its rows and becomes unsettled. Otherwise every listed
     * participant other than the payer who has no row gets one holding the
     * split (existing rows are kept as they are) and the bill is flagged
     * settled.
     */
    method ToggleSettlement(caller: int, billId: int) returns (o: Outcome)
      requires Valid()
      modifies this
      ensures Valid()
      ensures users == old(users) && order == old(order) && nextId == old(nextId)
      ensures o == (if billId !in old(bills) then NotFound
                    else if caller != old(bills)[billId].payer then Forbidden
                    else if !old(bills)[billId].isSettled && Ids(old(bills)[billId]).None? then Malformed
                    else Done)
      ensures o != Done ==> bills == old(bills) && settlements == old(settlements)
      ensures o == Done && old(bills)[billId].isSettled ==>
        && settlements == ClearRows(old(settlements), billId)
        && bills == old(bills)[billId := old(bills)[billId].(isSettled := false)]
      ensures o == Done && !old(bills)[billId].isSettled ==>
        var b := old(bills)[billId];
        && SettledAll(old(settlements), settlements, billId, Ids(b).value, b.payer, SplitAmount(b).value)
        && bills == old(bills)[billId := b.(isSettled := true)]
    {
      if billId !in bills {
        return NotFound;
      }
      var b := bills[billId];
      if caller != b.payer {
        return Forbidden;
      }
      if b.isSettled {
        var s1 := ClearRows(settlements, billId);
        var b' := b.(isSettled := false);
        if HasDebtor(b', users) {
          NoRowsNotPaid(b', users, s1);
        }
        ReplaceKeeps(users, bills, order, nextId, settlements, s1, billId, b');
        settlements := s1;
        bills := bills[billId := b'];
      } else {
        var parsed := Ids(b);
        if parsed.None? {
          return Malformed;
        }
        var split := SplitAmount(b).value;
        var s1 := AddMissingRows(settlements, billId, parsed.value, b.payer, split);
        var b' := b.(isSettled := true);
        assert AllPaid(b', users, s1);
        ReplaceKeeps(users, bills, order, nextId, settlements, s1, billId, b');
        settlements := s1;
        bills := bills[billId := b'];
      }
      o := Done;
    }

    /**
     * edit_bill: only the payer may edit. The description, amount and
     * participant text are replaced (the payer is not re-added); when the
     * amount or the participant text changed, all the bill's rows are deleted
     * and it is flagged unsettled, otherwise its rows and flag stay.
     */
    method EditBill(caller: int, billId: int, description: string, amount: int, form: seq<string>) returns (o: Outcome)
      requires Valid()
      modifies this
      ensures Valid()
      ensures users == old(users) && order == old(order) && nextId == old(nextId)
      ensures o == (if billId !in old(bills) then NotFound
                    else if caller != old(bills)[billId].payer then Forbidden
                    else Done)
      ensures o != Done ==> bills == old(bills) && settlements == old(settlements)
      ensures o == Done ==>
        var b := old(bills)[billId];
        var participants := Participants.Join(form);
        var changed := amount != b.amount || participants != b.participants;
        && bills == old(bills)[billId := Bill(billId, b.payer, amount, description, participants,
                                              if changed then false else b.isSettled)]
        && settlements == if changed then ClearRows(old(settlements), billId) else old(settlements)
    {
      if billId !in bills {
        return NotFound;
      }
      var b := bills[billId];
      if caller != b.payer {
        return Forbidden;
      }
      Rewrite(billId, description, amount, Participants.Join(form));
      o := Done;
    }

    /** The change edit_bill makes once its checks pass. */
    method Rewrite(billId: int, description: string, amount: int, participants: string)
      requires Valid() && billId in bills
      modifies this
      ensures Valid()
      ensures users == old(users) && order == old(order) && nextId == old(nextId)
      ensures
        var b := old(bills)[billId];
        var changed := amount != b.amount || participants != b.participants;
        && bills == old(bills)[billId := Bill(billId, b.payer, amount, description, participants,
                                              if changed then false else b.isSettled)]
        && settlements == if changed then ClearRows(old(settlements), billId) else old(settlements)
    {
      var b := bills[billId];
      var changed := amount != b.amount || participants != b.participants;
      if changed {
        var b' := Bill(billId, b.payer, amount, description, participants, false);
        var s1 := ClearRows(settlements, billId);
        if HasDebtor(b', users) {
          NoRowsNotPaid(b', users, s1);
        }
        ReplaceKeeps(users, bills, order, nextId, settlements, s1, billId, b');
        settlements := s1;
        bills := bills[billId := b'];
      } else {
        var b' := Bill(billId, b.payer, amount, description, participants, b.isSettled);
        SameShape(b, b', users, settlements);
        ReplaceKeeps(users, bills, order, nextId, settlements, settlements, billId, b');
        bills := bills[billId := b'];
      }
    }
  }

  /**
   * Toggling one participant twice leaves the settlement table as it was;
   * the bill's flag comes back too whenever it was in sync, that is whenever
   * the bill has a debtor.
   */
  method ToggleTwiceRestores(l: Ledger, caller: int, billId: int, userId: int)
    requires l.Valid()
    modifies l
    ensures l.Valid()
    ensures l.settlements == old(l.settlements)
    ensures billId in old(l.bills) && HasDebtor(old(l.bills)[billId], l.users) ==> l.bills == old(l.bills)
  {
    ghost var s0, b0 := l.settlements, l.bills;
    var o1, _ := l.SettleIndividual(caller, billId, userId);
    if o1 == Done {
      ghost var b := b0[billId];
      ghost var b1 := l.bills[billId];
      ghost var s1 := l.settlements;
      ghost var bills1 := l.bills;
      SameShape(b, b1, l.users, s1);
      var o2, _ := l.SettleIndividual(caller, billId, userId);
      assert o2 == Done;
      ToggleTwice(s0, (billId, userId), SplitAmount(b).value);
      assert l.settlements == s0;
      if HasDebtor(b, l.users) {
        assert FlagInSync(b, l.users, s0) by {
          assert FlagsInSync(b0, l.users, s0);
        }
        SameShape(b, b1, l.users, s0);
        assert l.bills == bills1[billId := b1.(isSettled := b.isSettled)];
        assert b1.(isSettled := b.isSettled) == b;
      }
    } else {
      assert l.bills == b0 && l.settlements == s0;
    }
  }
}
