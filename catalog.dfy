/** The static query helpers of the donate conversation: each refines the
    `donations` table with `where` conditions, then orders by `order`. The table
    is a sequence of rows in storage order. */
module Catalog {
  import opened Wrappers
  import opened Donations

  /** PHP truthiness of a `?int` argument: null and 0 are both false. */
  predicate Truthy(x: Option<int>) { x.Some? && x.value != 0 }

  /** `->where(...)`: the rows satisfying `p`, in their original order; each row
      is kept exactly as often as it occurs. */
  function Where(rows: seq<Donation>, p: Donation -> bool): (r: seq<Donation>)
    ensures forall x :: multiset(r)[x] == if p(x) then multiset(rows)[x] else 0
    ensures |r| <= |rows|
  {
    if rows == [] then []
    else
      assert rows == [rows[0]] + rows[1..];
      (if p(rows[0]) then [rows[0]] else []) + Where(rows[1..], p)
  }

  // The `where` conditions the helpers use, one per column.

  predicate IsActive(d: Donation) { d.active }

  function HasConfession(confessionId: int): Donation -> bool
  {
    (d: Donation) => d.confessionId == Some(confessionId)
  }

  function HasBranch(branchId: int): Donation -> bool
  {
    (d: Donation) => d.branchId == Some(branchId)
  }

  function HasPurpose(purpose: string): Donation -> bool
  {
    (d: Donation) => d.purpose == Some(purpose)
  }

  predicate SortedByOrder(s: seq<Donation>)
  {
    forall i, j :: 0 <= i < j < |s| ==> s[i].order <= s[j].order
  }

  lemma SortedPrepend(h: Donation, t: seq<Donation>)
    requires SortedByOrder(t)
    requires t == [] || h.order <= t[0].order
    ensures SortedByOrder([h] + t)
  {
    var r := [h] + t;
    forall i, j | 0 <= i < j < |r| ensures r[i].order <= r[j].order {
      assert r[j] == t[j - 1];
      if i > 0 {
        assert r[i] == t[i - 1];
      } else {
        assert t[0].order <= t[j - 1].order;
      }
    }
  }

  /** Places `x` before the first row whose `order` is not smaller. */
  function Insert(x: Donation, s: seq<Donation>): (r: seq<Donation>)
    requires SortedByOrder(s)
    ensures SortedByOrder(r)
    ensures multiset(r) == multiset(s) + multiset{x}
    ensures r[0] == x || r[0] == s[0]
  {
    if s == [] || x.order <= s[0].order then
      SortedPrepend(x, s);
      [x] + s
    else
      var rest := Insert(x, s[1..]);
      SortedPrepend(s[0], rest);
      assert s == [s[0]] + s[1..];
      [s[0]] + rest
  }

  /** `->orderBy('order')`: ascending `order`, a permutation of the rows. Ties
      keep table order here, which is one of the orders SQL allows. */
  function OrderByOrder(s: seq<Donation>): (r: seq<Donation>)
    ensures SortedByOrder(r)
    ensures multiset(r) == multiset(s)
  {
    if s == [] then []
    else
      assert s == [s[0]] + s[1..];
      Insert(s[0], OrderByOrder(s[1..]))
  }

  /** The rows `getDonations(confessionId, branchId)` is meant to return. */
  predicate Listed(d: Donation, confessionId: Option<int>, branchId: Option<int>)
  {
    && d.active
    && (Truthy(confessionId) ==> d.confessionId == Some(confessionId.value))
    && (Truthy(branchId) ==> d.branchId == Some(branchId.value))
  }

  /** `getDonations`: the active rows, narrowed by a truthy confession and a
      truthy branch, ordered by `order`. */
  function GetDonations(rows: seq<Donation>, confessionId: Option<int>, branchId: Option<int>): (r: seq<Donation>)
    ensures SortedByOrder(r)
    ensures forall x :: multiset(r)[x] == if Listed(x, confessionId, branchId) then multiset(rows)[x] else 0
  {
    var query := Where(rows, IsActive);
    var query := if Truthy(confessionId) then Where(query, HasConfession(confessionId.value)) else query;
    var query := if Truthy(branchId) then Where(query, HasBranch(branchId.value)) else query;
    OrderByOrder(query)
  }

  /** `find($id)` on a query: the first row with that id, if any. */
  function Find(rows: seq<Donation>, id: int): (r: Option<Donation>)
    ensures r.Some? ==> r.value in rows && r.value.id == id
    ensures r.None? <==> forall d :: d in rows ==> d.id != id
  {
    if rows == [] then None
    else if rows[0].id == id then Some(rows[0])
    else Find(rows[1..], id)
  }

  /** `getDonationById`: an active row with that id, or null. */
  function GetDonationById(rows: seq<Donation>, donationId: int): (r: Option<Donation>)
    ensures r.Some? ==> r.value in rows && r.value.id == donationId && r.value.active
    ensures r.None? <==> forall d :: d in rows ==> !(d.id == donationId && d.active)
  {
    var active := Where(rows, IsActive);
    assert forall d :: d in active <==> d in rows && d.active by {
      forall d ensures d in active <==> d in rows && d.active {
        assert d in active <==> multiset(active)[d] > 0;
      }
    }
    Find(active, donationId)
  }

  /** The rows `getDonationsByPurpose(purpose, confessionId)` is meant to return. */
  predicate ListedForPurpose(d: Donation, purpose: string, confessionId: Option<int>)
  {
    && d.active
    && d.purpose == Some(purpose)
    && (Truthy(confessionId) ==> d.confessionId == Some(confessionId.value))
  }

  /** `getDonationsByPurpose`: the active rows with exactly that purpose,
      narrowed by a truthy confession, ordered by `order`. */
  function GetDonationsByPurpose(rows: seq<Donation>, purpose: string, confessionId: Option<int>): (r: seq<Donation>)
    ensures SortedByOrder(r)
    ensures forall x :: multiset(r)[x] == if ListedForPurpose(x, purpose, confessionId) then multiset(rows)[x] else 0
  {
    var query := Where(Where(rows, IsActive), HasPurpose(purpose));
    var query := if Truthy(confessionId) then Where(query, HasConfession(confessionId.value)) else query;
    OrderByOrder(query)
  }

  // Properties of the queries

  lemma InMultiset(s: seq<Donation>, x: Donation)
    ensures x in s <==> multiset(s)[x] > 0
  {
  }

  /** `getDonations` returns exactly the rows meeting its filters: every row it
      returns is active and in the requested confession and branch, and no such
      row of the table is missing. */
  lemma GetDonationsMembers(rows: seq<Donation>, confessionId: Option<int>, branchId: Option<int>, x: Donation)
    ensures x in GetDonations(rows, confessionId, branchId) <==> x in rows && Listed(x, confessionId, branchId)
    ensures x in GetDonations(rows, confessionId, branchId) ==>
              x.active
              && (Truthy(confessionId) ==> x.confessionId == Some(confessionId.value))
              && (Truthy(branchId) ==> x.branchId == Some(branchId.value))
  {
    InMultiset(GetDonations(rows, confessionId, branchId), x);
    InMultiset(rows, x);
  }

  /** A falsy filter (null or 0) filters nothing: `getDonations(0, 0)` is
      `getDonations()`. */
  lemma FalsyFilterIgnored(rows: seq<Donation>, confessionId: Option<int>, branchId: Option<int>)
    requires !Truthy(confessionId) && !Truthy(branchId)
    ensures GetDonations(rows, confessionId, branchId) == GetDonations(rows, None, None)
    ensures GetDonations(rows, Some(0), Some(0)) == GetDonations(rows, None, None)
  {
  }

  /** Table invariant of a primary key: no two rows share an id. */
  predicate UniqueIds(rows: seq<Donation>)
  {
    forall i, j :: 0 <= i < j < |rows| ==> rows[i].id != rows[j].id
  }

  /** With unique ids, `getDonationById` of an existing row gives that row when it
      is active and null when it is not. */
  lemma GetDonationByIdOfRow(rows: seq<Donation>, d: Donation)
    requires UniqueIds(rows)
    requires d in rows
    ensures GetDonationById(rows, d.id) == if d.active then Some(d) else None
  {
    var r := GetDonationById(rows, d.id);
    if r.Some? {
      var i :| 0 <= i < |rows| && rows[i] == d;
      var j :| 0 <= j < |rows| && rows[j] == r.value;
      assert i == j;
    }
  }

  lemma {:induction false} WhereBounded(s: seq<Donation>, p: Donation -> bool, low: int)
    requires forall i :: 0 <= i < |s| ==> low <= s[i].order
    ensures forall i :: 0 <= i < |Where(s, p)| ==> low <= Where(s, p)[i].order
  {
    if s != [] {
      WhereBounded(s[1..], p, low);
    }
  }

  /** Keeping some rows of a sorted sequence leaves it sorted. */
  lemma {:induction false} WhereSorted(s: seq<Donation>, p: Donation -> bool)
    requires SortedByOrder(s)
    ensures SortedByOrder(Where(s, p))
  {
    if s != [] {
      var rest := Where(s[1..], p);
      WhereSorted(s[1..], p);
      WhereBounded(s[1..], p, s[0].order);
      if p(s[0]) {
        assert rest == [] || s[0].order <= rest[0].order;
        assert Where(s, p) == [s[0]] + rest;
        SortedPrepend(s[0], rest);
      } else {
        assert Where(s, p) == rest;
      }
    }
  }

  /** `getDonationsByPurpose(purpose, confessionId)` holds the rows of
      `getDonations(confessionId)` whose purpose is `purpose`, each as often,
      ordered by `order`. Which of two rows with equal `order` comes first is
      left open, as it is in SQL. */
  lemma ByPurposeIsFilteredListing(rows: seq<Donation>, purpose: string, confessionId: Option<int>)
    ensures var listed := Where(GetDonations(rows, confessionId, None), HasPurpose(purpose));
            && SortedByOrder(listed)
            && multiset(GetDonationsByPurpose(rows, purpose, confessionId)) == multiset(listed)
  {
    var all := GetDonations(rows, confessionId, None);
    var listed := Where(all, HasPurpose(purpose));
    WhereSorted(all, HasPurpose(purpose));
    var r := GetDonationsByPurpose(rows, purpose, confessionId);
    forall x ensures multiset(r)[x] == multiset(listed)[x] {
      assert ListedForPurpose(x, purpose, confessionId) <==> Listed(x, confessionId, None) && x.purpose == Some(purpose);
    }
    assert multiset(r) == multiset(listed);
  }

  /** A purpose no listed row has gives an empty sequence, not an error. */
  lemma UnknownPurposeIsEmpty(rows: seq<Donation>, purpose: string, confessionId: Option<int>)
    requires forall d :: d in rows ==> !ListedForPurpose(d, purpose, confessionId)
    ensures GetDonationsByPurpose(rows, purpose, confessionId) == []
  {
    var r := GetDonationsByPurpose(rows, purpose, confessionId);
    if r != [] {
      InMultiset(r, r[0]);
      InMultiset(rows, r[0]);
    }
  }

  lemma {:induction false} WhereKeepsAll(s: seq<Donation>, p: Donation -> bool)
    requires forall i :: 0 <= i < |s| ==> p(s[i])
    ensures Where(s, p) == s
  {
    if s != [] {
      WhereKeepsAll(s[1..], p);
    }
  }

  /** When every row meets the filters, `getDonations` only sorts. */
  lemma ListingAllRows(rows: seq<Donation>, confession: int)
    requires confession != 0
    requires forall i :: 0 <= i < |rows| ==> rows[i].active && rows[i].confessionId == Some(confession)
    ensures GetDonations(rows, Some(confession), None) == OrderByOrder(rows)
  {
    WhereKeepsAll(rows, IsActive);
    WhereKeepsAll(rows, HasConfession(confession));
  }

  lemma OrderThreeRows(a: Donation, b: Donation, c: Donation)
    requires a.order == 3 && b.order == 1 && c.order == 2
    ensures OrderByOrder([a, b, c]) == [b, c, a]
  {
    var sc := OrderByOrder([c]);
    assert [c][1..] == [];
    assert sc == [c];
    var sbc := OrderByOrder([b, c]);
    assert [b, c][1..] == [c];
    assert sbc == Insert(b, sc);
    assert sbc == [b, c];
    var ac := Insert(a, [c]);
    assert [c][1..] == [];
    assert ac == [c, a];
    assert [a, b, c][1..] == [b, c];
    assert OrderByOrder([a, b, c]) == Insert(a, sbc);
    assert [b, c][1..] == [c];
    assert Insert(a, [b, c]) == [b] + ac;
  }

  /** Three active rows of one confession stored with `order` 3, 1, 2 are listed
      as the rows with `order` 1, 2, 3. */
  lemma ListingOrdersRows(a: Donation, b: Donation, c: Donation, confession: int)
    requires a.active && b.active && c.active
    requires confession != 0
    requires a.confessionId == Some(confession) && b.confessionId == Some(confession) && c.confessionId == Some(confession)
    requires a.order == 3 && b.order == 1 && c.order == 2
    ensures GetDonations([a, b, c], Some(confession), None) == [b, c, a]
  {
    ListingAllRows([a, b, c], confession);
    OrderThreeRows(a, b, c);
  }
}
