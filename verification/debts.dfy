/**
 * The dashboard figures of app.py: calculate_debt_details (whom the user owes
 * and who owes the user, grouped by display name) and calculate_user_balance.
 * The bill table is passed as a sequence in query order; every bill's payer
 * is a stored user (the foreign key).
 */
module Debts {
  import opened Wrappers
  import opened Money
  import opened Bills

  /** One accrual: `amount` owed between the user and `counterparty`, shown as `name`, for the bill described `bill`. */
  datatype Item = Item(counterparty: int, name: string, amount: int, bill: string)

  /** The accruals of the two dictionaries, in the order they are made. */
  datatype Accruals = Accruals(iOwe: seq<Item>, oweMe: seq<Item>)

  /** One row of a debt list: the display name, the accumulated amount and the bill descriptions. */
  datatype Debt = Debt(name: string, amount: int, bills: seq<string>)

  /** The dictionary calculate_debt_details returns. */
  datatype Report = Report(iOwe: seq<Debt>, oweMe: seq<Debt>, totalIOwe: int, totalOweMe: int)

  ghost predicate PayersKnown(bills: seq<Bill>, users: Users)
  {
    forall i :: 0 <= i < |bills| ==> bills[i].payer in users
  }

  // ---------------------------------------------------------------------
  // Accruals, bill by bill

  /**
   * The listed positions, other than the user's own, whose status entry is
   * unsettled, counted with repetition: a participant listed twice counts
   * twice.
   */
  function Owing(user: int, ids: seq<int>, entries: map<int, Status>): nat
  {
    if |ids| == 0 then 0
    else
      var pid := ids[|ids| - 1];
      Owing(user, ids[..|ids| - 1], entries) + (if pid != user && pid in entries && !entries[pid].isSettled then 1 else 0)
  }

  /**
   * The listed positions, other than the user's own, that resolve to a user
   * without a settlement row for bill `bid`, counted with repetition.
   */
  function Debtors(user: int, ids: seq<int>, users: Users, bid: int, s: Settlements): nat
  {
    if |ids| == 0 then 0
    else
      var pid := ids[|ids| - 1];
      Debtors(user, ids[..|ids| - 1], users, bid, s) + (if pid != user && pid in users && (bid, pid) !in s then 1 else 0)
  }

  /** Where the status entries describe the users and rows, the two counts agree. */
  lemma {:induction false} OwingIsDebtors(user: int, ids: seq<int>, entries: map<int, Status>, users: Users, bid: int, s: Settlements)
    requires forall u :: u in ids && u != user ==> (u in entries <==> u in users)
    requires forall u :: u in ids && u != user && u in entries ==> (entries[u].isSettled <==> (bid, u) in s)
    ensures Owing(user, ids, entries) == Debtors(user, ids, users, bid, s)
  {
    if |ids| > 0 {
      var front := ids[..|ids| - 1];
      assert forall u :: u in front ==> u in ids;
      OwingIsDebtors(user, front, entries, users, bid, s);
    }
  }

  /**
   * The owe_me accruals of a bill the user paid: one per listed participant
   * other than the user whose status is unsettled, a participant listed
   * twice accruing twice.
   */
  function OweMeItems(user: int, ids: seq<int>, entries: map<int, Status>, users: Users, split: int, desc: string): (r: seq<Item>)
    requires forall u :: u in entries ==> u in users
    ensures forall it :: it in r ==>
      && it.counterparty in ids && it.counterparty != user
      && it.counterparty in entries && !entries[it.counterparty].isSettled
      && it.name == users[it.counterparty] && it.amount == split && it.bill == desc
    ensures |r| == Owing(user, ids, entries)
  {
    if |ids| == 0 then []
    else
      var pid := ids[|ids| - 1];
      OweMeItems(user, ids[..|ids| - 1], entries, users, split, desc)
        + (if pid != user && pid in entries && !entries[pid].isSettled then [Item(pid, users[pid], split, desc)] else [])
  }

  /** Every listed participant other than the user with an unsettled status accrues. */
  lemma {:induction false} OweMeComplete(user: int, ids: seq<int>, entries: map<int, Status>, users: Users, split: int, desc: string, u: int)
    requires forall v :: v in entries ==> v in users
    requires u in ids && u != user && u in entries && !entries[u].isSettled
    ensures Item(u, users[u], split, desc) in OweMeItems(user, ids, entries, users, split, desc)
  {
    var last := ids[|ids| - 1];
    if u != last {
      assert u in ids[..|ids| - 1] by {
        var i :| 0 <= i < |ids| && ids[i] == u;
        assert ids[..|ids| - 1][i] == u;
      }
      OweMeComplete(user, ids[..|ids| - 1], entries, users, split, desc, u);
    }
  }

  /**
   * The accruals one bill adds: as its payer, one owe_me accrual per listed
   * participant other than the user who resolves to a user and has no
   * settlement row; as another participant, one i_owe accrual to the payer
   * unless the user has a row. A bill not listing the user adds nothing; a
   * participant string that does not parse aborts the whole computation.
   */
  function BillItems(user: int, b: Bill, users: Users, s: Settlements): (r: Option<Accruals>)
    requires b.payer in users
    ensures r.Some? <==> Ids(b).Some?
    ensures r.Some? && user !in Ids(b).value ==> r.value == Accruals([], [])
    ensures r.Some? && b.payer == user ==>
      && r.value.iOwe == []
      && forall it :: it in r.value.oweMe ==>
        && it.counterparty in Ids(b).value && it.counterparty != user
        && it.counterparty in users && (b.id, it.counterparty) !in s
        && it.name == users[it.counterparty] && Some(it.amount) == SplitAmount(b) && it.bill == b.description
    ensures r.Some? && b.payer != user ==>
      && r.value.oweMe == []
      && r.value.iOwe == if user in Ids(b).value && user in users && (b.id, user) !in s
                         then [Item(b.payer, users[b.payer], SplitAmount(b).value, b.description)]
                         else []
  {
    var ids :- Ids(b);
    if user !in ids then Some(Accruals([], []))
    else
      var t := SettlementStatus(b, users, s).value;
      var split := Split(b.amount, |ids|);
      if b.payer == user then
        Some(Accruals([], OweMeItems(user, ids, t.entries, users, split, b.description)))
      else if user in t.entries && !t.entries[user].isSettled then
        Some(Accruals([Item(b.payer, users[b.payer], split, b.description)], []))
      else
        Some(Accruals([], []))
  }

  /**
   * As the payer of a bill listing the user, every listed participant other
   * than the user who resolves to a user and has no row is owed for.
   */
  lemma OweMeCoversDebtors(user: int, b: Bill, users: Users, s: Settlements, u: int)
    requires b.payer in users && b.payer == user
    requires Ids(b).Some? && user in Ids(b).value
    requires u in Ids(b).value && u != user && u in users && (b.id, u) !in s
    ensures Item(u, users[u], SplitAmount(b).value, b.description) in BillItems(user, b, users, s).value.oweMe
  {
    var ids := Ids(b).value;
    var t := SettlementStatus(b, users, s).value;
    OweMeComplete(user, ids, t.entries, users, Split(b.amount, |ids|), b.description, u);
  }

  /**
   * As the payer of a bill listing the user, one owe_me accrual per listed
   * position that is not the user and resolves to a user without a row: a
   * participant listed twice is owed for twice.
   */
  lemma OweMeCount(user: int, b: Bill, users: Users, s: Settlements)
    requires b.payer in users && b.payer == user
    requires Ids(b).Some? && user in Ids(b).value
    ensures |BillItems(user, b, users, s).value.oweMe| == Debtors(user, Ids(b).value, users, b.id, s)
  {
    var ids := Ids(b).value;
    var t := SettlementStatus(b, users, s).value;
    OwingIsDebtors(user, ids, t.entries, users, b.id, s);
  }

  /** Every item names a known user other than `user`, under that user's display name. */
  predicate OthersNamed(user: int, users: Users, items: seq<Item>)
  {
    forall it :: it in items ==> it.counterparty != user && it.counterparty in users && it.name == users[it.counterparty]
  }

  lemma OthersNamedConcat(user: int, users: Users, a: seq<Item>, b: seq<Item>)
    requires OthersNamed(user, users, a) && OthersNamed(user, users, b)
    ensures OthersNamed(user, users, a + b)
  {
  }

  lemma BillItemsNamed(user: int, b: Bill, users: Users, s: Settlements)
    requires b.payer in users && BillItems(user, b, users, s).Some?
    ensures OthersNamed(user, users, BillItems(user, b, users, s).value.iOwe)
    ensures OthersNamed(user, users, BillItems(user, b, users, s).value.oweMe)
  {
  }

  /** The accruals of all bills, in query order. */
  function AllItems(user: int, bills: seq<Bill>, users: Users, s: Settlements): (r: Option<Accruals>)
    requires PayersKnown(bills, users)
    ensures r.Some? <==> forall i :: 0 <= i < |bills| ==> Ids(bills[i]).Some?
    ensures r.Some? ==> OthersNamed(user, users, r.value.iOwe) && OthersNamed(user, users, r.value.oweMe)
  {
    if |bills| == 0 then Some(Accruals([], []))
    else
      var front := bills[..|bills| - 1];
      var last := bills[|bills| - 1];
      assert forall i :: 0 <= i < |front| ==> front[i] == bills[i];
      var acc :- AllItems(user, front, users, s);
      var step :- BillItems(user, last, users, s);
      BillItemsNamed(user, last, users, s);
      OthersNamedConcat(user, users, acc.iOwe, step.iOwe);
      OthersNamedConcat(user, users, acc.oweMe, step.oweMe);
      Some(Accruals(acc.iOwe + step.iOwe, acc.oweMe + step.oweMe))
  }

  // ---------------------------------------------------------------------
  // Grouping by display name (the defaultdicts)

  /** Adding one accrual to the list: the entry of its name grows, or a new entry is appended. */
  function Accrue(ds: seq<Debt>, it: Item): (r: seq<Debt>)
  {
    if |ds| == 0 then [Debt(it.name, it.amount, [it.bill])]
    else if ds[0].name == it.name then [Debt(ds[0].name, ds[0].amount + it.amount, ds[0].bills + [it.bill])] + ds[1..]
    else [ds[0]] + Accrue(ds[1..], it)
  }

  /** The dictionary after all accruals, as the list of its items in insertion order. */
  function Group(items: seq<Item>): (r: seq<Debt>)
  {
    if |items| == 0 then [] else Accrue(Group(items[..|items| - 1]), items[|items| - 1])
  }

  function Find(ds: seq<Debt>, name: string): (r: Option<Debt>)
    ensures r.Some? ==> r.value in ds && r.value.name == name
    ensures r.None? ==> forall d :: d in ds ==> d.name != name
  {
    if |ds| == 0 then None else if ds[0].name == name then Some(ds[0]) else Find(ds[1..], name)
  }

  /** The accrued amounts of the items shown as `name`. */
  function SumFor(items: seq<Item>, name: string): int
  {
    if |items| == 0 then 0
    else SumFor(items[..|items| - 1], name) + (if items[|items| - 1].name == name then items[|items| - 1].amount else 0)
  }

  /** The bill descriptions of the items shown as `name`, in accrual order. */
  function BillsFor(items: seq<Item>, name: string): seq<string>
  {
    if |items| == 0 then []
    else BillsFor(items[..|items| - 1], name) + (if items[|items| - 1].name == name then [items[|items| - 1].bill] else [])
  }

  function SumItems(items: seq<Item>): int
  {
    if |items| == 0 then 0 else SumItems(items[..|items| - 1]) + items[|items| - 1].amount
  }

  /** A paid bill's owe_me accruals add up to the split once per owing position. */
  lemma OweMeSum(user: int, ids: seq<int>, entries: map<int, Status>, users: Users, split: int, desc: string)
    requires forall u :: u in entries ==> u in users
    ensures SumItems(OweMeItems(user, ids, entries, users, split, desc)) == split * Owing(user, ids, entries)
  {
    SumEqual(OweMeItems(user, ids, entries, users, split, desc), split);
  }

  /** Items that all carry the same amount add up to that amount times their number. */
  lemma {:induction false} SumEqual(items: seq<Item>, amount: int)
    requires forall it :: it in items ==> it.amount == amount
    ensures SumItems(items) == amount * |items|
  {
    if |items| > 0 {
      var front := items[..|items| - 1];
      assert forall it :: it in front ==> it in items;
      SumEqual(front, amount);
      assert amount * |items| == amount * |front| + amount;
    }
  }

  /** `sum(item['amount'] for item in ...)`. */
  function Total(ds: seq<Debt>): int
  {
    if |ds| == 0 then 0 else ds[0].amount + Total(ds[1..])
  }

  predicate DistinctNames(ds: seq<Debt>)
  {
    forall i, j :: 0 <= i < j < |ds| ==> ds[i].name != ds[j].name
  }

  /** The entry for `it.name` after accruing `it`: the existing one grown by `it`, or a new one. */
  function Grown(d: Option<Debt>, it: Item): Debt
  {
    match d
    case None => Debt(it.name, it.amount, [it.bill])
    case Some(e) => Debt(it.name, e.amount + it.amount, e.bills + [it.bill])
  }

  /** Accruing an item leaves the entries of other names as they were. */
  lemma {:induction false} AccrueFindOther(ds: seq<Debt>, it: Item, name: string)
    requires name != it.name
    ensures Find(Accrue(ds, it), name) == Find(ds, name)
  {
    if |ds| > 0 {
      var r := Accrue(ds, it);
      if ds[0].name == it.name {
        assert r[0].name == it.name && r[1..] == ds[1..];
      } else {
        assert r[0] == ds[0] && r[1..] == Accrue(ds[1..], it);
        AccrueFindOther(ds[1..], it, name);
      }
    }
  }

  /** Accruing an item grows the entry of its name, or adds one. */
  lemma {:induction false} AccrueFindSame(ds: seq<Debt>, it: Item)
    ensures Find(Accrue(ds, it), it.name) == Some(Grown(Find(ds, it.name), it))
  {
    if |ds| > 0 && ds[0].name != it.name {
      var r := Accrue(ds, it);
      assert r[0] == ds[0] && r[1..] == Accrue(ds[1..], it);
      AccrueFindSame(ds[1..], it);
    }
  }

  lemma {:induction false} AccrueTotal(ds: seq<Debt>, it: Item)
    ensures Total(Accrue(ds, it)) == Total(ds) + it.amount
  {
    if |ds| > 0 {
      if ds[0].name == it.name {
        assert Accrue(ds, it)[1..] == ds[1..];
      } else {
        AccrueTotal(ds[1..], it);
        assert Accrue(ds, it)[1..] == Accrue(ds[1..], it);
      }
    }
  }

  lemma {:induction false} AccrueDistinct(ds: seq<Debt>, it: Item)
    requires DistinctNames(ds)
    ensures DistinctNames(Accrue(ds, it))
    ensures forall d :: d in Accrue(ds, it) ==> d.name == it.name || d in ds
  {
    if |ds| > 0 && ds[0].name != it.name {
      AccrueDistinct(ds[1..], it);
      var r := Accrue(ds, it);
      assert r == [ds[0]] + Accrue(ds[1..], it);
      forall i, j | 0 <= i < j < |r|
        ensures r[i].name != r[j].name
      {
        if i == 0 {
          assert r[j] in Accrue(ds[1..], it);
          if r[j].name != it.name {
            assert r[j] in ds[1..];
          }
        }
      }
    } else if |ds| > 0 {
      var r := Accrue(ds, it);
      forall i, j | 0 <= i < j < |r|
        ensures r[i].name != r[j].name
      {
        assert r[j] == ds[j];
        if i > 0 {
          assert r[i] == ds[i];
        }
      }
    }
  }

  /** The entry the source's dictionary holds for `name` after the accruals `items`. */
  function Expected(items: seq<Item>, name: string): Option<Debt>
  {
    if BillsFor(items, name) == [] then None else Some(Debt(name, SumFor(items, name), BillsFor(items, name)))
  }

  lemma {:induction false} GroupDistinct(items: seq<Item>)
    ensures DistinctNames(Group(items))
  {
    if |items| > 0 {
      GroupDistinct(items[..|items| - 1]);
      AccrueDistinct(Group(items[..|items| - 1]), items[|items| - 1]);
    }
  }

  /** One accrual under `name` grows or creates that name's entry as the sums say. */
  lemma GroupStepSame(front: seq<Item>, it: Item)
    requires Find(Group(front), it.name) == Expected(front, it.name)
    ensures Find(Group(front + [it]), it.name) == Expected(front + [it], it.name)
  {
    var items := front + [it];
    var name := it.name;
    assert items[..|items| - 1] == front && items[|items| - 1] == it;
    assert Group(items) == Accrue(Group(front), it);
    AccrueFindSame(Group(front), it);
    assert BillsFor(items, name) == BillsFor(front, name) + [it.bill];
    assert SumFor(items, name) == SumFor(front, name) + it.amount;
    var before := Find(Group(front), name);
    if BillsFor(front, name) == [] {
      EmptyBillsNoSum(front, name);
      assert before == None;
      assert BillsFor(items, name) == [it.bill] && SumFor(items, name) == it.amount;
      assert Grown(before, it) == Debt(name, SumFor(items, name), BillsFor(items, name));
    } else {
      assert before == Some(Debt(name, SumFor(front, name), BillsFor(front, name)));
      assert Grown(before, it) == Debt(name, SumFor(items, name), BillsFor(items, name));
    }
    assert Expected(items, name) == Some(Debt(name, SumFor(items, name), BillsFor(items, name)));
  }

  /** An accrual under another name leaves `name`'s entry and sums alone. */
  lemma GroupStepOther(front: seq<Item>, it: Item, name: string)
    requires name != it.name
    requires Find(Group(front), name) == Expected(front, name)
    ensures Find(Group(front + [it]), name) == Expected(front + [it], name)
  {
    var items := front + [it];
    assert items[..|items| - 1] == front && items[|items| - 1] == it;
    assert Group(items) == Accrue(Group(front), it);
    AccrueFindOther(Group(front), it, name);
    assert BillsFor(items, name) == BillsFor(front, name) + [];
    assert BillsFor(front, name) + [] == BillsFor(front, name);
    assert SumFor(items, name) == SumFor(front, name);
    assert Expected(items, name) == Expected(front, name);
  }

  /**
   * The grouped list holds, for each display name that accrued at all, one
   * entry whose amount is the sum of that name's accruals and whose bills
   * are their descriptions in accrual order; names are distinct.
   */
  lemma {:induction false} GroupExactly(items: seq<Item>, name: string)
    ensures DistinctNames(Group(items))
    ensures Find(Group(items), name) ==
      if BillsFor(items, name) == [] then None else Some(Debt(name, SumFor(items, name), BillsFor(items, name)))
  {
    GroupDistinct(items);
    if |items| > 0 {
      var front := items[..|items| - 1];
      var it := items[|items| - 1];
      assert items == front + [it];
      GroupExactly(front, name);
      if it.name == name {
        GroupStepSame(front, it);
      } else {
        GroupStepOther(front, it, name);
      }
    }
    assert Find(Group(items), name) == Expected(items, name);
  }

  lemma {:induction false} EmptyBillsNoSum(items: seq<Item>, name: string)
    requires BillsFor(items, name) == []
    ensures SumFor(items, name) == 0
  {
    if |items| > 0 {
      EmptyBillsNoSum(items[..|items| - 1], name);
    }
  }

  /** Grouping neither loses nor invents money: the entries add up to the accruals. */
  lemma {:induction false} GroupTotal(items: seq<Item>)
    ensures Total(Group(items)) == SumItems(items)
  {
    if |items| > 0 {
      GroupTotal(items[..|items| - 1]);
      AccrueTotal(Group(items[..|items| - 1]), items[|items| - 1]);
    }
  }

  /** Every entry's name is the name of some accrual. */
  lemma {:induction false} GroupNames(items: seq<Item>)
    ensures forall d :: d in Group(items) ==> exists it :: it in items && it.name == d.name
  {
    if |items| > 0 {
      var front := items[..|items| - 1];
      var it := items[|items| - 1];
      GroupNames(front);
      forall d | d in Group(items)
        ensures exists x :: x in items && x.name == d.name
      {
        if d.name == it.name {
          assert it in items;
        } else {
          AccrueNames(Group(front), it, d);
          var e :| e in Group(front) && e.name == d.name;
          var x :| x in front && x.name == e.name;
          assert x in items;
        }
      }
    }
  }

  lemma {:induction false} AccrueNames(ds: seq<Debt>, it: Item, d: Debt)
    requires d in Accrue(ds, it) && d.name != it.name
    ensures exists e :: e in ds && e.name == d.name
  {
    if |ds| > 0 && ds[0].name != it.name && d != ds[0] {
      AccrueNames(ds[1..], it, d);
    } else if |ds| > 0 && ds[0].name == it.name {
      assert d in ds[1..];
    }
  }

  lemma GroupSnoc(items: seq<Item>, it: Item)
    ensures Group(items + [it]) == Accrue(Group(items), it)
  {
    assert (items + [it])[..|items|] == items;
  }

  // ---------------------------------------------------------------------
  // calculate_debt_details

  /** The report: both dictionaries grouped, totals the sums of their rounded (whole-cent) amounts. */
  function DebtDetails(user: int, bills: seq<Bill>, users: Users, s: Settlements): (r: Option<Report>)
    requires PayersKnown(bills, users)
    ensures r.Some? <==> forall i :: 0 <= i < |bills| ==> Ids(bills[i]).Some?
  {
    var acc :- AllItems(user, bills, users, s);
    var iOwe := Group(acc.iOwe);
    var oweMe := Group(acc.oweMe);
    Some(Report(iOwe, oweMe, Total(iOwe), Total(oweMe)))
  }

  /** The totals are the sums of all accruals. */
  lemma ReportTotals(user: int, bills: seq<Bill>, users: Users, s: Settlements)
    requires PayersKnown(bills, users)
    requires AllItems(user, bills, users, s).Some?
    ensures DebtDetails(user, bills, users, s).value.totalIOwe == SumItems(AllItems(user, bills, users, s).value.iOwe)
    ensures DebtDetails(user, bills, users, s).value.totalOweMe == SumItems(AllItems(user, bills, users, s).value.oweMe)
  {
    var acc := AllItems(user, bills, users, s).value;
    GroupTotal(acc.iOwe);
    GroupTotal(acc.oweMe);
  }

  /**
   * When display names identify users, the report never lists the user as
   * owing or being owed by themself.
   */
  lemma NoSelfDebt(user: int, bills: seq<Bill>, users: Users, s: Settlements)
    requires PayersKnown(bills, users) && user in users
    requires forall u, v :: u in users && v in users && users[u] == users[v] ==> u == v
    requires DebtDetails(user, bills, users, s).Some?
    ensures forall d :: d in DebtDetails(user, bills, users, s).value.iOwe ==> d.name != users[user]
    ensures forall d :: d in DebtDetails(user, bills, users, s).value.oweMe ==> d.name != users[user]
  {
    var acc := AllItems(user, bills, users, s).value;
    GroupNames(acc.iOwe);
    GroupNames(acc.oweMe);
    forall d | d in Group(acc.iOwe) ensures d.name != users[user] {
      var it :| it in acc.iOwe && it.name == d.name;
      assert it in acc.iOwe + acc.oweMe;
    }
    forall d | d in Group(acc.oweMe) ensures d.name != users[user] {
      var it :| it in acc.oweMe && it.name == d.name;
      assert it in acc.iOwe + acc.oweMe;
    }
  }

  /** The accruals of a prefix of the bills, one bill longer. */
  lemma AllItemsStep(user: int, bills: seq<Bill>, users: Users, s: Settlements, i: int)
    requires PayersKnown(bills, users) && 0 <= i < |bills|
    requires AllItems(user, bills[..i], users, s).Some? && BillItems(user, bills[i], users, s).Some?
    ensures PayersKnown(bills[..i + 1], users)
    ensures AllItems(user, bills[..i + 1], users, s) == Some(Accruals(
      AllItems(user, bills[..i], users, s).value.iOwe + BillItems(user, bills[i], users, s).value.iOwe,
      AllItems(user, bills[..i], users, s).value.oweMe + BillItems(user, bills[i], users, s).value.oweMe))
  {
    assert bills[..i + 1][..i] == bills[..i];
  }

  /** BillItems for a bill listing the user, one step unfolded. */
  lemma BillItemsListed(user: int, b: Bill, users: Users, s: Settlements)
    requires b.payer in users && Ids(b).Some? && user in Ids(b).value
    ensures
      var ids := Ids(b).value;
      var entries := SettlementStatus(b, users, s).value.entries;
      var split := Split(b.amount, |ids|);
      BillItems(user, b, users, s) == Some(
        if b.payer == user then Accruals([], OweMeItems(user, ids, entries, users, split, b.description))
        else if user in entries && !entries[user].isSettled then Accruals([Item(b.payer, users[b.payer], split, b.description)], [])
        else Accruals([], []))
  {
  }

  /** The inner loop over the participants of a bill the user paid. */
  method AccrueOweMe(user: int, ids: seq<int>, entries: map<int, Status>, users: Users, split: int, desc: string,
                     ghost prior: seq<Item>, oweMe: seq<Debt>)
    returns (oweMe': seq<Debt>)
    requires forall u :: u in entries ==> u in users
    requires oweMe == Group(prior)
    ensures oweMe' == Group(prior + OweMeItems(user, ids, entries, users, split, desc))
  {
    oweMe' := oweMe;
    ghost var items: seq<Item> := [];
    assert prior + items == prior;
    for j := 0 to |ids|
      invariant items == OweMeItems(user, ids[..j], entries, users, split, desc)
      invariant oweMe' == Group(prior + items)
    {
      var pid := ids[j];
      assert ids[..j + 1][..j] == ids[..j];
      if pid != user && pid in entries && !entries[pid].isSettled {
        var it := Item(pid, users[pid], split, desc);
        GroupSnoc(prior + items, it);
        assert prior + (items + [it]) == (prior + items) + [it];
        oweMe' := Accrue(oweMe', it);
        items := items + [it];
      } else {
        assert items + [] == items;
      }
    }
    assert ids[..|ids|] == ids;
  }

  /**
   * The body of the bill loop for a bill listing the user: its accruals
   * added to the two grouped lists.
   */
  method AccrueBill(user: int, bill: Bill, users: Users, s: Settlements, ids: seq<int>,
                    ghost acc: Accruals, iOwe: seq<Debt>, oweMe: seq<Debt>)
    returns (iOwe': seq<Debt>, oweMe': seq<Debt>)
    requires bill.payer in users && Ids(bill) == Some(ids) && user in ids
    requires iOwe == Group(acc.iOwe) && oweMe == Group(acc.oweMe)
    ensures BillItems(user, bill, users, s).Some?
    ensures iOwe' == Group(acc.iOwe + BillItems(user, bill, users, s).value.iOwe)
    ensures oweMe' == Group(acc.oweMe + BillItems(user, bill, users, s).value.oweMe)
  {
    var status := GetSettlementStatus(bill, users, s);
    var entries := status.value.entries;
    var split := Split(bill.amount, |ids|);
    BillItemsListed(user, bill, users, s);
    iOwe', oweMe' := iOwe, oweMe;
    if bill.payer == user {
      oweMe' := AccrueOweMe(user, ids, entries, users, split, bill.description, acc.oweMe, oweMe);
      assert acc.iOwe + [] == acc.iOwe;
    } else {
      if user in entries && !entries[user].isSettled {
        var it := Item(bill.payer, users[bill.payer], split, bill.description);
        GroupSnoc(acc.iOwe, it);
        iOwe' := Accrue(iOwe', it);
      } else {
        assert acc.iOwe + [] == acc.iOwe;
      }
      assert acc.oweMe + [] == acc.oweMe;
    }
  }

  /**
   * calculate_debt_details as the source runs it: one pass over the bills,
   * each accrual added to its defaultdict entry.
   */
  method CalculateDebtDetails(user: int, bills: seq<Bill>, users: Users, s: Settlements) returns (r: Option<Report>)
    requires PayersKnown(bills, users)
    ensures r == DebtDetails(user, bills, users, s)
  {
    var iOwe: seq<Debt> := [];
    var oweMe: seq<Debt> := [];
    ghost var acc := Accruals([], []);
    for i := 0 to |bills|
      invariant PayersKnown(bills[..i], users)
      invariant AllItems(user, bills[..i], users, s) == Some(acc)
      invariant iOwe == Group(acc.iOwe) && oweMe == Group(acc.oweMe)
    {
      var bill := bills[i];
      var parsed := Ids(bill);
      if parsed.None? {
        return None;
      }
      var ids := parsed.value;
      AllItemsStep(user, bills, users, s, i);
      if user in ids {
        iOwe, oweMe := AccrueBill(user, bill, users, s, ids, acc, iOwe, oweMe);
        acc := Accruals(acc.iOwe + BillItems(user, bill, users, s).value.iOwe,
                        acc.oweMe + BillItems(user, bill, users, s).value.oweMe);
      } else {
        assert acc.iOwe + [] == acc.iOwe && acc.oweMe + [] == acc.oweMe;
      }
    }
    assert bills[..|bills|] == bills;
    r := Some(Report(iOwe, oweMe, Total(iOwe), Total(oweMe)));
  }

  // ---------------------------------------------------------------------
  // calculate_user_balance

  /**
   * First loop: on an unsettled bill the user paid and is listed on, the
   * user expects back the amount less their own share. Other bills add
   * nothing and are not parsed.
   */
  function Receivable(user: int, b: Bill): (r: Option<int>)
    ensures r.None? <==> b.payer == user && !b.isSettled && Ids(b).None?
    ensures r.Some? ==> r.value == if b.payer == user && !b.isSettled && user in Ids(b).value then b.amount - SplitAmount(b).value else 0
    ensures r.Some? && b.payer == user && !b.isSettled && user in Ids(b).value ==>
      2 * Abs(r.value - (|Ids(b).value| - 1) * SplitAmount(b).value) <= |Ids(b).value|
  {
    if b.payer != user || b.isSettled then Some(0)
    else
      var ids :- Ids(b);
      if user in ids then
        var split := Split(b.amount, |ids|);
        ResidueBound(b.amount, |ids|, split);
        Some(b.amount - split)
      else Some(0)
  }

  /** What the payer expects back differs from what the others owe by the rounding residue. */
  lemma ResidueBound(amount: int, n: nat, split: int)
    requires n > 0 && 2 * Abs(split * n - amount) <= n
    ensures 2 * Abs((amount - split) - (n - 1) * split) <= n
  {
    assert (n - 1) * split == split * n - split;
    assert (amount - split) - (n - 1) * split == -(split * n - amount);
  }

  /**
   * Second loop: on an unsettled bill someone else paid that lists the user,
   * the user owes the split. Other bills add nothing and are not parsed.
   */
  function Payable(user: int, b: Bill): (r: Option<int>)
    ensures r.None? <==> b.payer != user && !b.isSettled && Ids(b).None?
    ensures r.Some? ==> r.value == if b.payer != user && !b.isSettled && user in Ids(b).value then SplitAmount(b).value else 0
  {
    if b.isSettled || b.payer == user then Some(0)
    else
      var ids :- Ids(b);
      Some(if user in ids then Split(b.amount, |ids|) else 0)
  }

  function Receivables(user: int, bills: seq<Bill>): (r: Option<int>)
  {
    if |bills| == 0 then Some(0)
    else
      var acc :- Receivables(user, bills[..|bills| - 1]);
      var x :- Receivable(user, bills[|bills| - 1]);
      Some(acc + x)
  }

  function Payables(user: int, bills: seq<Bill>): (r: Option<int>)
  {
    if |bills| == 0 then Some(0)
    else
      var acc :- Payables(user, bills[..|bills| - 1]);
      var x :- Payable(user, bills[|bills| - 1]);
      Some(acc + x)
  }

  /** calculate_user_balance: what the user expects back less what the user owes; settlement rows play no part. */
  function Balance(user: int, bills: seq<Bill>): (r: Option<int>)
  {
    var gain :- Receivables(user, bills);
    var debt :- Payables(user, bills);
    Some(gain - debt)
  }

  /** The balance fails exactly when an unsettled bill it has to read does not parse. */
  lemma {:induction false} BalanceDefined(user: int, bills: seq<Bill>)
    ensures Balance(user, bills).Some? <==>
      forall i :: 0 <= i < |bills| && !bills[i].isSettled ==> Ids(bills[i]).Some?
  {
    if |bills| > 0 {
      var front := bills[..|bills| - 1];
      BalanceDefined(user, front);
      assert forall i :: 0 <= i < |front| ==> front[i] == bills[i];
    }
  }

  /**
   * calculate_user_balance as the source runs it: a loop over the unsettled
   * bills the user paid, then a loop over the unsettled bills of others.
   */
  method CalculateUserBalance(user: int, bills: seq<Bill>) returns (r: Option<int>)
    ensures r == Balance(user, bills)
  {
    var balance := 0;
    for i := 0 to |bills|
      invariant Receivables(user, bills[..i]) == Some(balance)
    {
      var bill := bills[i];
      if bill.payer == user && !bill.isSettled {
        var parsed := Ids(bill);
        if parsed.None? {
          ReceivablesFail(user, bills, i);
          return None;
        }
        if user in parsed.value {
          balance := balance + (bill.amount - SplitAmount(bill).value);
        }
      }
      assert Receivable(user, bill).Some?;
      ReceivablesStep(user, bills, i);
    }
    assert bills[..|bills|] == bills;
    ghost var gain := balance;
    for i := 0 to |bills|
      invariant Payables(user, bills[..i]).Some?
      invariant balance == gain - Payables(user, bills[..i]).value
    {
      var bill := bills[i];
      if bill.payer != user && !bill.isSettled {
        var parsed := Ids(bill);
        if parsed.None? {
          PayablesFail(user, bills, i);
          return None;
        }
        if user in parsed.value {
          balance := balance - SplitAmount(bill).value;
        }
      }
      assert Payable(user, bill).Some?;
      PayablesStep(user, bills, i);
    }
    r := Some(balance);
  }

  lemma ReceivablesStep(user: int, bills: seq<Bill>, i: int)
    requires 0 <= i < |bills| && Receivables(user, bills[..i]).Some? && Receivable(user, bills[i]).Some?
    ensures Receivables(user, bills[..i + 1]) == Some(Receivables(user, bills[..i]).value + Receivable(user, bills[i]).value)
  {
    assert bills[..i + 1][..i] == bills[..i];
  }

  lemma PayablesStep(user: int, bills: seq<Bill>, i: int)
    requires 0 <= i < |bills| && Payables(user, bills[..i]).Some? && Payable(user, bills[i]).Some?
    ensures Payables(user, bills[..i + 1]) == Some(Payables(user, bills[..i]).value + Payable(user, bills[i]).value)
  {
    assert bills[..i + 1][..i] == bills[..i];
  }

  lemma {:induction false} ReceivablesFail(user: int, bills: seq<Bill>, i: int)
    requires 0 <= i < |bills| && Receivable(user, bills[i]).None?
    ensures Receivables(user, bills).None?
  {
    if i < |bills| - 1 {
      var front := bills[..|bills| - 1];
      assert front[i] == bills[i];
      ReceivablesFail(user, front, i);
    }
  }

  lemma {:induction false} PayablesFail(user: int, bills: seq<Bill>, i: int)
    requires 0 <= i < |bills| && Payable(user, bills[i]).None?
    ensures Payables(user, bills).None?
  {
    if i < |bills| - 1 {
      var front := bills[..|bills| - 1];
      assert front[i] == bills[i];
      PayablesFail(user, front, i);
    }
  }
}
