/**
 * The Bill helpers of models.py (lines 82-154; roommate-bills/models.py
 * lines 44-116 hold the same text): the split of a bill's amount, the
 * per-participant settlement status, the progress counts, the fully-settled
 * test and the list of participants still owing.
 */
module Bills {
  import opened Wrappers
  import Money
  import Participants

  /** One row of the bill table; `amount` in cents, `participants` the stored comma-separated text. */
  datatype Bill = Bill(id: int, payer: int, amount: int, description: string, participants: string, isSettled: bool)

  /**
   * One value of the status dict. `user` stands for the User object by its
   * id; the settlement date is not modelled.
   */
  datatype Status = Status(user: int, isPayer: bool, expected: int, isSettled: bool, settledAmount: int)

  /** A Python dict of statuses: its keys in insertion order, and the mapping itself. */
  datatype StatusTable = StatusTable(keys: seq<int>, entries: map<int, Status>)

  datatype Progress = Progress(settled: nat, total: nat, percentage: int)

  /** The user table: id to display name. */
  type Users = map<int, string>

  /** The settlement table: (bill id, settler id) to the settled amount in cents. */
  type Settlements = map<(int, int), int>

  function Ids(b: Bill): Option<seq<int>>
  {
    Participants.Parse(b.participants)
  }

  /** get_split_amount for n participants: amount / n rounded to the cent, 0 without participants. */
  function Split(amount: int, n: nat): (r: int)
    ensures n == 0 ==> r == 0
    ensures n > 0 ==> 2 * Money.Abs(r * n - amount) <= n
    ensures n > 0 && 2 * Money.Abs(r * n - amount) == n ==> r % 2 == 0
  {
    if n > 0 then Money.RoundHalfEven(amount, n) else 0
  }

  /**
   * Bill.get_split_amount: every participant's share, so that the shares add
   * up to the amount within half a cent per participant; `None` when the
   * participant text does not parse.
   */
  function SplitAmount(b: Bill): (r: Option<int>)
    ensures r.Some? <==> Ids(b).Some?
    ensures r.Some? && |Ids(b).value| == 0 ==> r.value == 0
    ensures r.Some? && |Ids(b).value| > 0 ==>
      2 * Money.Abs(r.value * |Ids(b).value| - b.amount) <= |Ids(b).value|
  {
    var ids :- Ids(b);
    Some(Split(b.amount, |ids|))
  }

  /** The `settled_users` dict: settler id to settled amount, over the rows of one bill. */
  function RowsOf(s: Settlements, bid: int): (r: map<int, int>)
    ensures forall u :: u in r <==> (bid, u) in s
    ensures forall u :: u in r ==> r[u] == s[(bid, u)]
  {
    map k | k in s && k.0 == bid :: k.1 := s[k]
  }

  /** The status of participant `u`; the payer counts as settled and owes nothing. */
  function Entry(b: Bill, u: int, split: int, rows: map<int, int>): Status
  {
    var isPayer := u == b.payer;
    Status(u, isPayer, if isPayer then 0 else split, u in rows || isPayer, if u in rows then rows[u] else 0)
  }

  /** The keys of the status dict: the participants that resolve to a user, each at its first occurrence. */
  function StatusKeys(ids: seq<int>, users: Users): (r: seq<int>)
    ensures forall u :: u in r <==> u in ids && u in users
    ensures forall i, j :: 0 <= i < j < |r| ==> r[i] != r[j]
  {
    if |ids| == 0 then []
    else
      var r := StatusKeys(ids[..|ids| - 1], users);
      var u := ids[|ids| - 1];
      assert forall v :: v in ids <==> v in ids[..|ids| - 1] || v == u;
      if u in users && u !in r then r + [u] else r
  }

  function StatusEntries(b: Bill, ids: seq<int>, users: Users, split: int, rows: map<int, int>): map<int, Status>
  {
    map u | u in ids && u in users :: Entry(b, u, split, rows)
  }

  /**
   * Bill.get_settlement_status: one entry per participant that resolves to a
   * user. The payer is settled and expected to pay nothing; any other
   * participant is settled exactly when a settlement row exists for them on
   * this bill, and is expected to pay the split.
   */
  function SettlementStatus(b: Bill, users: Users, s: Settlements): (r: Option<StatusTable>)
    ensures r.Some? <==> Ids(b).Some?
    ensures r.Some? ==> forall u :: u in r.value.entries <==> u in Ids(b).value && u in users
    ensures r.Some? ==> forall u :: u in r.value.keys <==> u in r.value.entries
    ensures r.Some? ==> forall i, j :: 0 <= i < j < |r.value.keys| ==> r.value.keys[i] != r.value.keys[j]
    ensures r.Some? ==> forall u :: u in r.value.entries ==>
      var e := r.value.entries[u];
      && e.user == u
      && (e.isPayer <==> u == b.payer)
      && (u == b.payer ==> e.isSettled && e.expected == 0)
      && (u != b.payer ==> (e.isSettled <==> (b.id, u) in s) && Some(e.expected) == SplitAmount(b))
      && e.settledAmount == (if (b.id, u) in s then s[(b.id, u)] else 0)
  {
    var ids :- Ids(b);
    var split := Split(b.amount, |ids|);
    Some(StatusTable(StatusKeys(ids, users), StatusEntries(b, ids, users, split, RowsOf(s, b.id))))
  }

  /**
   * get_settlement_status as the source runs it: one loop over the bill's
   * settlement rows filling `settled_users`, one over the participants
   * filling the status dict.
   */
  method GetSettlementStatus(b: Bill, users: Users, s: Settlements) returns (r: Option<StatusTable>)
    ensures r == SettlementStatus(b, users, s)
  {
    var parsed := Ids(b);
    if parsed.None? {
      return None;
    }
    var ids := parsed.value;
    var split := Split(b.amount, |ids|);

    var settledUsers: map<int, int> := map[];
    var pending := s.Keys;
    while pending != {}
      invariant pending <= s.Keys
      invariant forall u :: u in settledUsers <==> (b.id, u) in s && (b.id, u) !in pending
      invariant forall u :: u in settledUsers ==> settledUsers[u] == s[(b.id, u)]
      decreases |pending|
    {
      var k :| k in pending;
      if k.0 == b.id {
        settledUsers := settledUsers[k.1 := s[k]];
      }
      pending := pending - {k};
    }
    var rows := RowsOf(s, b.id);
    forall u ensures u in settledUsers <==> u in rows {
      assert (b.id, u) !in pending;
    }
    assert settledUsers == rows;

    var keys: seq<int> := [];
    var entries: map<int, Status> := map[];
    var i := 0;
    while i < |ids|
      invariant 0 <= i <= |ids|
      invariant keys == StatusKeys(ids[..i], users)
      invariant entries == StatusEntries(b, ids[..i], users, split, settledUsers)
    {
      var u := ids[i];
      StatusStep(b, ids, i, users, split, settledUsers);
      if u in users {
        var isPayer := u == b.payer;
        if u !in entries {
          keys := keys + [u];
        }
        entries := entries[u := Status(u, isPayer, if isPayer then 0 else split,
                                       u in settledUsers || isPayer,
                                       if u in settledUsers then settledUsers[u] else 0)];
      }
      i := i + 1;
    }
    assert ids[..i] == ids;
    r := Some(StatusTable(keys, entries));
  }

  /** One turn of the participant loop of get_settlement_status. */
  lemma StatusStep(b: Bill, ids: seq<int>, i: nat, users: Users, split: int, rows: map<int, int>)
    requires i < |ids|
    ensures ids[..i + 1][..i] == ids[..i] && ids[..i + 1][i] == ids[i]
    ensures var u := ids[i];
      StatusEntries(b, ids[..i + 1], users, split, rows)
      == if u in users then StatusEntries(b, ids[..i], users, split, rows)[u := Entry(b, u, split, rows)]
         else StatusEntries(b, ids[..i], users, split, rows)
    ensures forall v :: v in StatusKeys(ids[..i], users) <==> v in StatusEntries(b, ids[..i], users, split, rows)
  {
    assert ids[..i + 1] == ids[..i] + [ids[i]];
  }

  // ---------------------------------------------------------------------
  // Progress, completeness, the unsettled list

  /** The entries counted by `sum(1 for status in ... if status['is_settled'])`. */
  function SettledSet(entries: map<int, Status>): set<int>
  {
    set u | u in entries && entries[u].isSettled
  }

  lemma {:induction false} SubsetCard<T>(a: set<T>, b: set<T>)
    requires a <= b
    ensures |a| <= |b|
    ensures |a| == |b| ==> a == b
    decreases b
  {
    if a != b {
      var x :| x in b && x !in a;
      SubsetCard(a, b - {x});
    }
  }

  /**
   * Bill.get_settlement_progress: zeros for an empty status; otherwise the
   * settled count never exceeds the total, which is the number of entries,
   * and the percentage is 100 * settled / total rounded to the nearest
   * integer, ties to even, so it lies between 0 and 100.
   */
  function ProgressOf(entries: map<int, Status>): (p: Progress)
    ensures |entries| == 0 ==> p == Progress(0, 0, 0)
    ensures p.total == |entries| && p.settled <= p.total
    ensures p.settled == |SettledSet(entries)|
    ensures 0 <= p.percentage <= 100
    ensures p.total > 0 && p.settled == p.total ==> p.percentage == 100
    ensures p.total > 0 ==> 2 * Money.Abs(p.percentage * p.total - 100 * p.settled) <= p.total
    ensures p.total > 0 && 2 * Money.Abs(p.percentage * p.total - 100 * p.settled) == p.total ==> p.percentage % 2 == 0
  {
    SubsetCard(SettledSet(entries), entries.Keys);
    if |entries| == 0 then Progress(0, 0, 0)
    else
      var settled, total := |SettledSet(entries)|, |entries|;
      var pct := Money.RoundHalfEven(100 * settled, total);
      PercentBounds(settled, total, pct);
      Progress(settled, total, pct)
  }

  lemma PositiveFactor(x: int, t: int)
    requires t > 0 && x * t > 0
    ensures x > 0
  {
  }

  lemma PercentBounds(settled: nat, total: nat, pct: int)
    requires 0 < total && settled <= total
    requires 2 * Money.Abs(pct * total - 100 * settled) <= total
    requires 2 * Money.Abs(pct * total - 100 * settled) == total ==> pct % 2 == 0
    ensures 0 <= pct <= 100
    ensures settled == total ==> pct == 100
  {
    var m := pct * total;
    assert 2 * (100 * settled - m) <= total && 2 * (m - 100 * settled) <= total;
    assert (pct + 1) * total == m + total;
    PositiveFactor(pct + 1, total);
    assert (101 - pct) * total == 101 * total - m;
    PositiveFactor(101 - pct, total);
    if settled == total {
      Money.RoundHalfEvenUnique(100 * settled, total, pct);
      Money.RoundHalfEvenUnique(100 * settled, total, 100);
    }
  }

  /** Every status entry is settled, and there is at least one. */
  predicate FullySettled(entries: map<int, Status>)
  {
    |entries| > 0 && forall u :: u in entries ==> entries[u].isSettled
  }

  /**
   * Bill.check_fully_settled compares the counts of the progress: the settled
   * count equals the total and the total is positive exactly when every
   * entry is settled and there is at least one.
   */
  lemma FullySettledIsComplete(entries: map<int, Status>)
    ensures FullySettled(entries) <==>
      ProgressOf(entries).settled == ProgressOf(entries).total && ProgressOf(entries).total > 0
  {
    SubsetCard(SettledSet(entries), entries.Keys);
    assert (forall u :: u in entries ==> entries[u].isSettled) ==> SettledSet(entries) == entries.Keys;
  }

  /** Bill.get_unsettled_participants: the entries, in key order, that are neither settled nor the payer. */
  function Unsettled(keys: seq<int>, entries: map<int, Status>): (r: seq<Status>)
    ensures forall x :: x in r ==> !x.isSettled && !x.isPayer
    ensures forall x :: x in r ==> exists u :: u in keys && u in entries && entries[u] == x
    ensures forall u :: u in keys && u in entries && !entries[u].isSettled && !entries[u].isPayer ==> entries[u] in r
  {
    if |keys| == 0 then []
    else
      var rest := Unsettled(keys[1..], entries);
      var u := keys[0];
      assert forall v :: v in keys <==> v == u || v in keys[1..];
      if u in entries && !entries[u].isSettled && !entries[u].isPayer then [entries[u]] + rest else rest
  }

  /** Bill.get_settlement_progress on the bill's status table; it fails exactly when the column does not read. */
  function SettlementProgress(b: Bill, users: Users, s: Settlements): (r: Option<Progress>)
    ensures r.Some? <==> Ids(b).Some?
    ensures r.Some? ==> r.value.settled <= r.value.total && 0 <= r.value.percentage <= 100
  {
    var t :- SettlementStatus(b, users, s);
    Some(ProgressOf(t.entries))
  }

  /** Bill.check_fully_settled: the progress's settled count equals its total and the total is positive. */
  function CheckFullySettled(b: Bill, users: Users, s: Settlements): (r: Option<bool>)
    ensures r.Some? <==> Ids(b).Some?
    ensures r.Some? ==> (r.value <==>
      SettlementProgress(b, users, s).value.settled == SettlementProgress(b, users, s).value.total
      && SettlementProgress(b, users, s).value.total > 0)
  {
    var t :- SettlementStatus(b, users, s);
    FullySettledIsComplete(t.entries);
    Some(FullySettled(t.entries))
  }

  /** Bill.get_unsettled_participants: unsettled non-payer entries of the status table, no user twice. */
  function UnsettledParticipants(b: Bill, users: Users, s: Settlements): (r: Option<seq<Status>>)
    ensures r.Some? <==> Ids(b).Some?
    ensures r.Some? ==> forall x :: x in r.value ==> !x.isSettled && !x.isPayer
    ensures r.Some? ==> DistinctUsers(r.value)
  {
    var t :- SettlementStatus(b, users, s);
    UnsettledDistinct(t.keys, t.entries);
    Some(Unsettled(t.keys, t.entries))
  }

  /** No user is listed twice. */
  predicate DistinctUsers(r: seq<Status>)
  {
    forall i, j :: 0 <= i < j < |r| ==> r[i].user != r[j].user
  }

  /** With distinct keys, each naming its own entry, no user is listed twice. */
  lemma {:induction false} UnsettledDistinct(keys: seq<int>, entries: map<int, Status>)
    requires forall i, j :: 0 <= i < j < |keys| ==> keys[i] != keys[j]
    requires forall u :: u in entries ==> entries[u].user == u
    ensures DistinctUsers(Unsettled(keys, entries))
  {
    if |keys| > 0 {
      var u, tail := keys[0], keys[1..];
      var rest := Unsettled(tail, entries);
      forall i, j | 0 <= i < j < |tail| ensures tail[i] != tail[j] {
        assert tail[i] == keys[i + 1] && tail[j] == keys[j + 1];
      }
      UnsettledDistinct(tail, entries);
      if u in entries && !entries[u].isSettled && !entries[u].isPayer {
        forall x | x in rest ensures x.user != u {
          var v :| v in tail && v in entries && entries[v] == x;
          var k :| 0 <= k < |tail| && tail[k] == v;
          assert keys[k + 1] == v;
        }
        assert entries[u].user == u;
        ConsDistinct(entries[u], rest);
        assert Unsettled(keys, entries) == [entries[u]] + rest;
      } else {
        assert Unsettled(keys, entries) == rest;
      }
    }
  }

  /** Putting a status in front of a list without its user keeps the users distinct. */
  lemma ConsDistinct(x: Status, rest: seq<Status>)
    requires DistinctUsers(rest)
    requires forall y :: y in rest ==> y.user != x.user
    ensures DistinctUsers([x] + rest)
  {
    var r := [x] + rest;
    forall i, j | 0 <= i < j < |r| ensures r[i].user != r[j].user {
      assert r[j] == rest[j - 1];
      if i > 0 {
        assert r[i] == rest[i - 1];
      }
    }
  }

  // ---------------------------------------------------------------------
  // Properties stated against the settlement table

  /** Some participant resolves to a user. */
  predicate HasResolvable(b: Bill, users: Users)
  {
    Ids(b).Some? && exists u :: u in Ids(b).value && u in users
  }

  /** A participant other than the payer who resolves to a user, and so can owe a share. */
  predicate HasDebtor(b: Bill, users: Users)
  {
    Ids(b).Some? && exists u :: u in Ids(b).value && u in users && u != b.payer
  }

  /**
   * A bill is fully settled exactly when some participant resolves to a user
   * and every resolvable participant other than the payer has a settlement row.
   */
  lemma FullySettledIffAllPaid(b: Bill, users: Users, s: Settlements)
    requires Ids(b).Some?
    ensures CheckFullySettled(b, users, s) == Some(
      (exists u :: u in Ids(b).value && u in users)
      && forall u :: u in Ids(b).value && u in users && u != b.payer ==> (b.id, u) in s)
  {
    var t := SettlementStatus(b, users, s).value;
    var ids := Ids(b).value;
    if exists u :: u in ids && u in users {
      var u :| u in ids && u in users;
      assert u in t.entries;
    }
  }

  /** Every resolvable participant other than the payer has a settlement row for the bill. */
  predicate AllPaid(b: Bill, users: Users, s: Settlements)
  {
    Ids(b).Some? && forall u :: u in Ids(b).value && u in users && u != b.payer ==> (b.id, u) in s
  }

  /**
   * check_fully_settled() as the source runs it: the status table built by
   * the loops of get_settlement_status, then its entries checked. The answer
   * is that some participant resolves to a user and everyone else has paid.
   */
  method IsFullySettled(b: Bill, users: Users, s: Settlements) returns (r: Option<bool>)
    ensures r.Some? <==> Ids(b).Some?
    ensures r.Some? ==> (r.value <==> HasResolvable(b, users) && AllPaid(b, users, s))
  {
    var t := GetSettlementStatus(b, users, s);
    if t.None? {
      return None;
    }
    FullySettledIffAllPaid(b, users, s);
    r := Some(FullySettled(t.value.entries));
  }

  /** The progress counts: the total is the number of distinct resolvable participants, the settled count those among them that are the payer or have a row. */
  lemma ProgressCounts(b: Bill, users: Users, s: Settlements)
    requires Ids(b).Some?
    ensures SettlementProgress(b, users, s).Some?
    ensures SettlementProgress(b, users, s).value.total == |set u | u in Ids(b).value && u in users|
    ensures SettlementProgress(b, users, s).value.settled
         == |set u | u in Ids(b).value && u in users && (u == b.payer || (b.id, u) in s)|
  {
    var t := SettlementStatus(b, users, s).value;
    assert t.entries.Keys == set u | u in Ids(b).value && u in users;
    assert SettledSet(t.entries) == set u | u in Ids(b).value && u in users && (u == b.payer || (b.id, u) in s);
  }

  /**
   * The unsettled list names exactly the resolvable participants other than
   * the payer that have no settlement row, each once, each expected to pay
   * the split.
   */
  lemma UnsettledExactly(b: Bill, users: Users, s: Settlements)
    requires Ids(b).Some?
    ensures UnsettledParticipants(b, users, s).Some?
    ensures forall u :: ((exists x :: x in UnsettledParticipants(b, users, s).value && x.user == u)
      <==> u in Ids(b).value && u in users && u != b.payer && (b.id, u) !in s)
    ensures forall x :: x in UnsettledParticipants(b, users, s).value ==> Some(x.expected) == SplitAmount(b)
  {
    var t := SettlementStatus(b, users, s).value;
    var r := Unsettled(t.keys, t.entries);
    forall u | u in Ids(b).value && u in users && u != b.payer && (b.id, u) !in s
      ensures exists x :: x in r && x.user == u
    {
      assert u in t.keys && u in t.entries;
      assert t.entries[u] in r;
    }
  }

  /**
   * When the payer is listed and is the only participant who resolves to a
   * user, the bill is fully settled without any settlement row, although
   * add_bill stores it with `is_settled = False`.
   */
  lemma PayerOnlyIsFullySettled(b: Bill, users: Users, s: Settlements)
    requires Ids(b).Some? && b.payer in Ids(b).value && b.payer in users
    requires forall u :: u in Ids(b).value && u in users ==> u == b.payer
    ensures CheckFullySettled(b, users, s) == Some(true)
    ensures !HasDebtor(b, users)
  {
    FullySettledIffAllPaid(b, users, s);
  }

  /** The status of a bill depends on the settlement table only through the bill's own rows. */
  lemma RowsFrame(s1: Settlements, s2: Settlements, bid: int)
    requires forall u :: (bid, u) in s1 <==> (bid, u) in s2
    requires forall u :: (bid, u) in s1 ==> s1[(bid, u)] == s2[(bid, u)]
    ensures RowsOf(s1, bid) == RowsOf(s2, bid)
  {
  }
}
