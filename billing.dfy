/**
 * The billing dashboard and the billing settings page.
 *
 * The dashboard query joins every company with its assets, its users and the billing
 * plan of its (contract_type, billing_plan) pair, one row per company ordered by name;
 * the route then adds a `total_bill` to each row. The settings page turns the posted form
 * into plan records and writes them with `INSERT OR REPLACE`, and lists the plan of every
 * pair some company uses, with defaults for a pair that has no plan.
 */
module Billing {
  import opened Common
  import opened Store

  // ===========================================================================
  // Asset classification and the per-company counts

  /** A server: an operating system containing "Server" under LIKE's case folding; a NULL system is neither. */
  predicate IsServer(a: Asset)
  {
    a.operatingSystem.Some? && LikeContains(a.operatingSystem.value, "Server")
  }

  /** A workstation: an operating system that is present and does not contain "Server" under LIKE. */
  predicate IsWorkstation(a: Asset)
  {
    a.operatingSystem.Some? && !LikeContains(a.operatingSystem.value, "Server")
  }

  /** The ids (positions) of the assets stored under account number `acct`. */
  function AssetIds(assets: seq<Asset>, acct: string): set<nat>
  {
    set i: nat | i < |assets| && assets[i].accountNumber == acct
  }

  function ServerIds(assets: seq<Asset>, acct: string): set<nat>
  {
    set i: nat | i < |assets| && assets[i].accountNumber == acct && IsServer(assets[i])
  }

  function WorkstationIds(assets: seq<Asset>, acct: string): set<nat>
  {
    set i: nat | i < |assets| && assets[i].accountNumber == acct && IsWorkstation(assets[i])
  }

  /** The ids (positions) of the users stored under account number `acct`. */
  function UserIds(users: seq<User>, acct: string): set<nat>
  {
    set j: nat | j < |users| && users[j].accountNumber == acct
  }

  lemma SubsetCard<T>(a: set<T>, b: set<T>)
    requires a <= b
    ensures |a| <= |b|
  {
    assert b == a + (b - a);
  }

  /**
   * An asset is a server or a workstation, never both; an asset with a NULL operating
   * system is neither, so the two counts add up to at most the company's assets.
   */
  lemma ClassificationBound(assets: seq<Asset>, acct: string)
    ensures ServerIds(assets, acct) * WorkstationIds(assets, acct) == {}
    ensures ServerIds(assets, acct) + WorkstationIds(assets, acct) ==
      set i: nat | i in AssetIds(assets, acct) && assets[i].operatingSystem.Some?
    ensures |ServerIds(assets, acct)| + |WorkstationIds(assets, acct)| <= |AssetIds(assets, acct)|
  {
    var both := ServerIds(assets, acct) + WorkstationIds(assets, acct);
    assert both <= AssetIds(assets, acct);
    SubsetCard(both, AssetIds(assets, acct));
  }

  /**
   * LIKE folds ASCII case, so an operating system spelled with a lower-case "server"
   * is billed as a server, although it does not contain the exact substring "Server".
   */
  lemma LowerCaseServerExample()
    ensures LikeContains("Windows server 2019", "Server")
    ensures !ContainsExactly("Windows server 2019", "Server")
  {
    var s := "Windows server 2019";
    assert MatchesAt(s, "Server", 8);
    forall i | 0 <= i <= |s| - 6 ensures !OccursAt(s, "Server", i) {
      assert s[i..i + 6][0] == s[i];
    }
  }

  // ===========================================================================
  // The LEFT JOINs and the DISTINCT counts

  /**
   * The (a.id, u.id) pairs the two LEFT JOINs produce for one company: every asset with
   * every user, a NULL side when the company has none of that kind.
   */
  ghost function JoinedRows(assets: seq<Asset>, users: seq<User>, acct: string): set<(Option<nat>, Option<nat>)>
  {
    var assetSide := if AssetIds(assets, acct) == {} then {None} else set i | i in AssetIds(assets, acct) :: Some(i);
    var userSide := if UserIds(users, acct) == {} then {None} else set j | j in UserIds(users, acct) :: Some(j);
    set a, u | a in assetSide && u in userSide :: (a, u)
  }

  /** The distinct ids of server assets among the joined rows. */
  ghost function JoinedServerIds(assets: seq<Asset>, users: seq<User>, acct: string): set<nat>
  {
    set p | p in JoinedRows(assets, users, acct) && p.0.Some? && p.0.value < |assets| && IsServer(assets[p.0.value]) :: p.0.value
  }

  ghost function JoinedWorkstationIds(assets: seq<Asset>, users: seq<User>, acct: string): set<nat>
  {
    set p | p in JoinedRows(assets, users, acct) && p.0.Some? && p.0.value < |assets| && IsWorkstation(assets[p.0.value]) :: p.0.value
  }

  /** The distinct ids of users among the joined rows. */
  ghost function JoinedUserIds(assets: seq<Asset>, users: seq<User>, acct: string): set<nat>
  {
    set p | p in JoinedRows(assets, users, acct) && p.1.Some? :: p.1.value
  }

  /** Some joined row carries asset `i` (whatever user it is paired with). */
  lemma AssetInJoin(assets: seq<Asset>, users: seq<User>, acct: string, i: nat)
    requires i in AssetIds(assets, acct)
    ensures exists p :: p in JoinedRows(assets, users, acct) && p.0 == Some(i)
  {
    if UserIds(users, acct) == {} {
      assert (Some(i), None) in JoinedRows(assets, users, acct);
    } else {
      var j :| j in UserIds(users, acct);
      assert (Some(i), Some(j)) in JoinedRows(assets, users, acct);
    }
  }

  /** Some joined row carries user `j` (whatever asset it is paired with). */
  lemma UserInJoin(assets: seq<Asset>, users: seq<User>, acct: string, j: nat)
    requires j in UserIds(users, acct)
    ensures exists p :: p in JoinedRows(assets, users, acct) && p.1 == Some(j)
  {
    if AssetIds(assets, acct) == {} {
      assert (None, Some(j)) in JoinedRows(assets, users, acct);
    } else {
      var i :| i in AssetIds(assets, acct);
      assert (Some(i), Some(j)) in JoinedRows(assets, users, acct);
    }
  }

  /**
   * The asset-by-user fan-out of the joins never inflates a count: the DISTINCT counts over
   * the joined rows are the numbers of the company's servers, workstations and users.
   */
  lemma JoinCounts(assets: seq<Asset>, users: seq<User>, acct: string)
    ensures JoinedServerIds(assets, users, acct) == ServerIds(assets, acct)
    ensures JoinedWorkstationIds(assets, users, acct) == WorkstationIds(assets, acct)
    ensures JoinedUserIds(assets, users, acct) == UserIds(users, acct)
  {
    forall i | i in ServerIds(assets, acct) ensures i in JoinedServerIds(assets, users, acct) {
      AssetInJoin(assets, users, acct, i);
    }
    forall i | i in WorkstationIds(assets, acct) ensures i in JoinedWorkstationIds(assets, users, acct) {
      AssetInJoin(assets, users, acct, i);
    }
    forall j | j in UserIds(users, acct) ensures j in JoinedUserIds(assets, users, acct) {
      UserInJoin(assets, users, acct, j);
    }
  }

  // ===========================================================================
  // The dashboard rows

  /** One row of the dashboard query. */
  datatype ClientRow = ClientRow(
    accountNumber: string,
    name: string,
    contractType: string,
    billingPlan: string,
    serverCount: nat,
    workstationCount: nat,
    userCount: nat,
    basePrice: real,
    perUserCost: real,
    perServerCost: real,
    perWorkstationCost: real,
    billedBy: string)

  /** The row of company `acct`: its counts, and its plan's costs with COALESCE defaults. */
  function ClientRowOf(t: Tables, acct: string): (r: ClientRow)
    requires acct in t.companies
    ensures r.accountNumber == acct && r.name == t.companies[acct].name
    ensures r.serverCount == |ServerIds(t.assets, acct)| && r.workstationCount == |WorkstationIds(t.assets, acct)|
    ensures r.userCount == |UserIds(t.users, acct)|
    ensures r.contractType == t.companies[acct].contractType && r.billingPlan == t.companies[acct].billingPlan
    ensures PairOf(t.companies[acct]) in t.plans ==>
      var p := t.plans[PairOf(t.companies[acct])];
      && r.billedBy == p.billedBy && r.basePrice == p.basePrice && r.perUserCost == p.perUserCost
      && r.perServerCost == p.perServerCost && r.perWorkstationCost == p.perWorkstationCost
    ensures PairOf(t.companies[acct]) !in t.plans ==>
      && r.billedBy == "Not Configured" && r.basePrice == 0.0 && r.perUserCost == 0.0
      && r.perServerCost == 0.0 && r.perWorkstationCost == 0.0
  {
    var c := t.companies[acct];
    var key := (c.contractType, c.billingPlan);
    var servers := |ServerIds(t.assets, acct)|;
    var workstations := |WorkstationIds(t.assets, acct)|;
    var users := |UserIds(t.users, acct)|;
    if key in t.plans then
      var p := t.plans[key];
      ClientRow(acct, c.name, c.contractType, c.billingPlan, servers, workstations, users,
                p.basePrice, p.perUserCost, p.perServerCost, p.perWorkstationCost, p.billedBy)
    else
      ClientRow(acct, c.name, c.contractType, c.billingPlan, servers, workstations, users,
                0.0, 0.0, 0.0, 0.0, "Not Configured")
  }

  /** The account numbers the rows are about. */
  function RowAccounts(rows: seq<ClientRow>): set<string>
  {
    set i | 0 <= i < |rows| :: rows[i].accountNumber
  }

  /** Every row is the row of a company of `t`. */
  ghost predicate RowsOfCompanies(t: Tables, rows: seq<ClientRow>)
  {
    forall i :: 0 <= i < |rows| ==>
      rows[i].accountNumber in t.companies && rows[i] == ClientRowOf(t, rows[i].accountNumber)
  }

  /** No account has two rows. */
  predicate DistinctAccounts(rows: seq<ClientRow>)
  {
    forall i, j :: 0 <= i < j < |rows| ==> rows[i].accountNumber != rows[j].accountNumber
  }

  /** The rows are in ascending order of name (ORDER BY name). */
  predicate SortedByName(rows: seq<ClientRow>)
  {
    forall i, j :: 0 <= i < j < |rows| ==> StrLe(rows[i].name, rows[j].name)
  }

  /**
   * `rows` is a result of the dashboard query on `t`: one row per company (every company,
   * none twice), each the company's own row, in ascending order of name.
   */
  ghost predicate IsClientsQuery(t: Tables, rows: seq<ClientRow>)
  {
    && RowsOfCompanies(t, rows)
    && RowAccounts(rows) == t.companies.Keys
    && DistinctAccounts(rows)
    && SortedByName(rows)
  }

  /** `m` has the least name of `cs`, except perhaps for `k0`; one of the two has the least name. */
  lemma MinWithOne(cs: CompanyTable, k0: string, m: string)
    requires k0 in cs && m in cs
    requires forall k' :: k' in cs && k' != k0 ==> StrLe(cs[m].name, cs[k'].name)
    ensures exists k :: k in cs && forall k' :: k' in cs ==> StrLe(cs[k].name, cs[k'].name)
  {
    StrLeRefl(cs[k0].name);
    StrLeTotal(cs[k0].name, cs[m].name);
    if StrLe(cs[k0].name, cs[m].name) {
      forall k' | k' in cs ensures StrLe(cs[k0].name, cs[k'].name) {
        if k' != k0 {
          StrLeTrans(cs[k0].name, cs[m].name, cs[k'].name);
        }
      }
    } else {
      assert forall k' :: k' in cs ==> StrLe(cs[m].name, cs[k'].name);
    }
  }

  /** Some company has a name no greater than any other's. */
  lemma {:induction false} MinNameExists(cs: CompanyTable)
    requires cs != map[]
    ensures exists k :: k in cs && forall k' :: k' in cs ==> StrLe(cs[k].name, cs[k'].name)
    decreases |cs|
  {
    var k0 :| k0 in cs;
    var rest := cs - {k0};
    if rest == map[] {
      forall k' | k' in cs ensures k' == k0 {
        assert k' !in rest;
      }
      MinWithOne(cs, k0, k0);
    } else {
      assert |rest| < |cs| by {
        assert rest.Keys < cs.Keys;
      }
      MinNameExists(rest);
      var m :| m in rest && forall k' :: k' in rest ==> StrLe(rest[m].name, rest[k'].name);
      forall k' | k' in cs && k' != k0 ensures StrLe(cs[m].name, cs[k'].name) {
        assert k' in rest;
      }
      MinWithOne(cs, k0, m);
    }
  }

  /** Removing one company leaves the other companies' rows as they were. */
  lemma RowsWithout(t: Tables, k: string, acct: string)
    requires acct in t.companies && acct != k
    ensures ClientRowOf(t.(companies := t.companies - {k}), acct) == ClientRowOf(t, acct)
  {
  }

  lemma TailAccounts(rows: seq<ClientRow>)
    requires rows != []
    requires forall i, j :: 0 <= i < j < |rows| ==> rows[i].accountNumber != rows[j].accountNumber
    ensures RowAccounts(rows[1..]) == RowAccounts(rows) - {rows[0].accountNumber}
  {
    var tail := rows[1..];
    forall x | x in RowAccounts(rows) - {rows[0].accountNumber} ensures x in RowAccounts(tail) {
      var n :| 0 <= n < |rows| && rows[n].accountNumber == x;
      assert tail[n - 1] == rows[n];
    }
    forall x | x in RowAccounts(tail) ensures x in RowAccounts(rows) - {rows[0].accountNumber} {
      var n :| 0 <= n < |tail| && tail[n].accountNumber == x;
      assert rows[n + 1] == tail[n];
    }
  }

  lemma TailOfCompanies(t: Tables, rows: seq<ClientRow>)
    requires rows != [] && RowsOfCompanies(t, rows) && DistinctAccounts(rows)
    ensures RowsOfCompanies(t.(companies := t.companies - {rows[0].accountNumber}), rows[1..])
  {
    var a := rows[0].accountNumber;
    var t' := t.(companies := t.companies - {a});
    var tail := rows[1..];
    forall n | 0 <= n < |tail|
      ensures tail[n].accountNumber in t'.companies && tail[n] == ClientRowOf(t', tail[n].accountNumber)
    {
      assert tail[n] == rows[n + 1];
      RowsWithout(t, a, tail[n].accountNumber);
    }
  }

  lemma TailOrdered(rows: seq<ClientRow>)
    requires rows != [] && DistinctAccounts(rows) && SortedByName(rows)
    ensures DistinctAccounts(rows[1..]) && SortedByName(rows[1..])
  {
  }

  /** Dropping the first row of a result leaves a result for the store without its company. */
  lemma QueryTail(t: Tables, rows: seq<ClientRow>)
    requires rows != [] && IsClientsQuery(t, rows)
    ensures IsClientsQuery(t.(companies := t.companies - {rows[0].accountNumber}), rows[1..])
  {
    TailOfCompanies(t, rows);
    TailAccounts(rows);
    TailOrdered(rows);
  }

  lemma ConsAccounts(row: ClientRow, tail: seq<ClientRow>)
    ensures RowAccounts([row] + tail) == {row.accountNumber} + RowAccounts(tail)
  {
    var rows := [row] + tail;
    forall x | x in RowAccounts(rows) ensures x in {row.accountNumber} + RowAccounts(tail) {
      var i :| 0 <= i < |rows| && rows[i].accountNumber == x;
      if i > 0 {
        assert tail[i - 1] == rows[i];
      }
    }
    forall x | x in RowAccounts(tail) ensures x in RowAccounts(rows) {
      var i :| 0 <= i < |tail| && tail[i].accountNumber == x;
      assert rows[i + 1] == tail[i];
    }
    assert rows[0].accountNumber == row.accountNumber;
  }

  lemma ConsOfCompanies(t: Tables, k: string, tail: seq<ClientRow>)
    requires k in t.companies && RowsOfCompanies(t.(companies := t.companies - {k}), tail)
    ensures RowsOfCompanies(t, [ClientRowOf(t, k)] + tail)
    ensures k !in RowAccounts(tail)
  {
    var rows := [ClientRowOf(t, k)] + tail;
    forall i | 0 <= i < |rows|
      ensures rows[i].accountNumber in t.companies && rows[i] == ClientRowOf(t, rows[i].accountNumber)
    {
      if i > 0 {
        assert rows[i] == tail[i - 1];
        RowsWithout(t, k, tail[i - 1].accountNumber);
      }
    }
  }

  lemma ConsOrdered(row: ClientRow, tail: seq<ClientRow>)
    requires DistinctAccounts(tail) && SortedByName(tail) && row.accountNumber !in RowAccounts(tail)
    requires forall j :: 0 <= j < |tail| ==> StrLe(row.name, tail[j].name)
    ensures DistinctAccounts([row] + tail) && SortedByName([row] + tail)
  {
    var rows := [row] + tail;
    assert forall i :: 1 <= i < |rows| ==> rows[i] == tail[i - 1];
  }

  /** A company of least name, followed by a result for the other companies, is a result. */
  lemma QueryCons(t: Tables, k: string, tail: seq<ClientRow>)
    requires k in t.companies && forall k' :: k' in t.companies ==> StrLe(t.companies[k].name, t.companies[k'].name)
    requires IsClientsQuery(t.(companies := t.companies - {k}), tail)
    ensures IsClientsQuery(t, [ClientRowOf(t, k)] + tail)
  {
    ConsOfCompanies(t, k, tail);
    ConsAccounts(ClientRowOf(t, k), tail);
    forall j | 0 <= j < |tail| ensures StrLe(ClientRowOf(t, k).name, tail[j].name) {
      assert tail[j].accountNumber in t.companies;
    }
    ConsOrdered(ClientRowOf(t, k), tail);
  }

  /** The dashboard query has a result on every store. */
  lemma {:induction false} ClientsQueryExists(t: Tables)
    ensures exists rows :: IsClientsQuery(t, rows)
    decreases |t.companies|
  {
    if t.companies == map[] {
      assert IsClientsQuery(t, []);
      return;
    }
    MinNameExists(t.companies);
    var k :| k in t.companies && forall k' :: k' in t.companies ==> StrLe(t.companies[k].name, t.companies[k'].name);
    var t' := t.(companies := t.companies - {k});
    assert |t'.companies| < |t.companies| by {
      assert t'.companies.Keys < t.companies.Keys;
    }
    ClientsQueryExists(t');
    var tail: seq<ClientRow> :| IsClientsQuery(t', tail);
    QueryCons(t, k, tail);
  }

  /** Two results of the dashboard query start with the same company. */
  lemma SameFirstRow(t: Tables, r1: seq<ClientRow>, r2: seq<ClientRow>)
    requires NamesUnique(t.companies) && IsClientsQuery(t, r1) && IsClientsQuery(t, r2)
    requires r1 != [] && r2 != []
    ensures r1[0] == r2[0]
  {
    var a := r1[0].accountNumber;
    var b := r2[0].accountNumber;
    assert b in RowAccounts(r1);
    assert a in RowAccounts(r2);
    var i :| 0 <= i < |r1| && r1[i].accountNumber == b;
    var j :| 0 <= j < |r2| && r2[j].accountNumber == a;
    StrLeRefl(r1[0].name);
    StrLeRefl(r2[0].name);
    assert StrLe(t.companies[a].name, t.companies[b].name) by {
      assert StrLe(r1[0].name, r1[i].name);
    }
    assert StrLe(t.companies[b].name, t.companies[a].name) by {
      assert StrLe(r2[0].name, r2[j].name);
    }
    StrLeAntisym(t.companies[a].name, t.companies[b].name);
  }

  /** Two results agree on their first row, and their tails are results for the rest. */
  lemma UniqueStep(t: Tables, r1: seq<ClientRow>, r2: seq<ClientRow>)
    requires NamesUnique(t.companies) && IsClientsQuery(t, r1) && IsClientsQuery(t, r2)
    requires r1 != [] && r2 != []
    ensures r1[0] == r2[0]
    ensures NamesUnique(t.companies - {r1[0].accountNumber})
    ensures IsClientsQuery(t.(companies := t.companies - {r1[0].accountNumber}), r1[1..])
    ensures IsClientsQuery(t.(companies := t.companies - {r1[0].accountNumber}), r2[1..])
  {
    SameFirstRow(t, r1, r2);
    QueryTail(t, r1);
    QueryTail(t, r2);
  }

  /** A result is empty exactly when the store has no companies. */
  lemma QueryEmpty(t: Tables, rows: seq<ClientRow>)
    requires IsClientsQuery(t, rows)
    ensures rows == [] <==> t.companies == map[]
  {
    assert rows != [] ==> rows[0].accountNumber in RowAccounts(rows);
  }

  lemma ConsEqual(r1: seq<ClientRow>, r2: seq<ClientRow>)
    requires r1 != [] && r2 != [] && r1[0] == r2[0] && r1[1..] == r2[1..]
    ensures r1 == r2
  {
    assert r1 == [r1[0]] + r1[1..] && r2 == [r2[0]] + r2[1..];
  }

  lemma {:induction false} QueryUniqueByNames(t: Tables, r1: seq<ClientRow>, r2: seq<ClientRow>)
    requires NamesUnique(t.companies) && IsClientsQuery(t, r1) && IsClientsQuery(t, r2)
    ensures r1 == r2
    decreases |r1|
  {
    QueryEmpty(t, r1);
    QueryEmpty(t, r2);
    if r1 == [] || r2 == [] {
      return;
    }
    UniqueStep(t, r1, r2);
    QueryUniqueByNames(t.(companies := t.companies - {r1[0].accountNumber}), r1[1..], r2[1..]);
    ConsEqual(r1, r2);
  }

  /**
   * Company names are unique, so ORDER BY name leaves no tie: the dashboard query has
   * exactly one result.
   */
  lemma ClientsQueryUnique(t: Tables, r1: seq<ClientRow>, r2: seq<ClientRow>)
    requires CompaniesValid(t.companies) && IsClientsQuery(t, r1) && IsClientsQuery(t, r2)
    ensures r1 == r2
  {
    QueryUniqueByNames(t, r1, r2);
  }

  // ===========================================================================
  // The total loop

  /** The bill of one row, chosen by `billed_by`; any other value bills the base price alone. */
  function TotalBill(r: ClientRow): real
  {
    if r.billedBy == "Per User" then r.basePrice + r.userCount as real * r.perUserCost
    else if r.billedBy == "Per Device" then
      r.basePrice + r.workstationCount as real * r.perWorkstationCost + r.serverCount as real * r.perServerCost
    else r.basePrice
  }

  /** A dashboard row with its `total_bill`. */
  datatype BilledClient = BilledClient(row: ClientRow, totalBill: real)

  /**
   * The loop of `billing_dashboard`: one output per query row, in the same order, with
   * `total = base_price` plus the per-user or per-device part selected by `billed_by`.
   */
  method ComputeTotals(rows: seq<ClientRow>) returns (clients: seq<BilledClient>)
    ensures |clients| == |rows|
    ensures forall i :: 0 <= i < |rows| ==> clients[i].row == rows[i]
    ensures forall i :: 0 <= i < |rows| && rows[i].billedBy == "Per User" ==>
      clients[i].totalBill == rows[i].basePrice + rows[i].userCount as real * rows[i].perUserCost
    ensures forall i :: 0 <= i < |rows| && rows[i].billedBy == "Per Device" ==>
      clients[i].totalBill == rows[i].basePrice + rows[i].workstationCount as real * rows[i].perWorkstationCost
                                                + rows[i].serverCount as real * rows[i].perServerCost
    ensures forall i :: 0 <= i < |rows| && rows[i].billedBy != "Per User" && rows[i].billedBy != "Per Device" ==>
      clients[i].totalBill == rows[i].basePrice
  {
    clients := [];
    for n := 0 to |rows|
      invariant |clients| == n
      invariant forall i :: 0 <= i < n ==> clients[i] == BilledClient(rows[i], TotalBill(rows[i]))
    {
      var client := rows[n];
      var total := client.basePrice;
      if client.billedBy == "Per User" {
        total := total + client.userCount as real * client.perUserCost;
      } else if client.billedBy == "Per Device" {
        total := total + client.workstationCount as real * client.perWorkstationCost;
        total := total + client.serverCount as real * client.perServerCost;
      }
      clients := clients + [BilledClient(client, total)];
    }
  }

  /** A company whose (contract_type, billing_plan) has no plan is 'Not Configured' and billed 0. */
  lemma MissingPlanBillsNothing(t: Tables, acct: string)
    requires acct in t.companies
    requires (t.companies[acct].contractType, t.companies[acct].billingPlan) !in t.plans
    ensures ClientRowOf(t, acct).billedBy == "Not Configured"
    ensures ClientRowOf(t, acct).basePrice == 0.0 && ClientRowOf(t, acct).perUserCost == 0.0
    ensures ClientRowOf(t, acct).perServerCost == 0.0 && ClientRowOf(t, acct).perWorkstationCost == 0.0
    ensures TotalBill(ClientRowOf(t, acct)) == 0.0
  {
  }

  /**
   * A company whose pair has a plan is billed by that plan: its base price, plus its users
   * at the per-user cost for 'Per User', or its workstations and servers at their costs for
   * 'Per Device'.
   */
  lemma PlannedBill(t: Tables, acct: string)
    requires acct in t.companies && PairOf(t.companies[acct]) in t.plans
    ensures var p := t.plans[PairOf(t.companies[acct])];
      TotalBill(ClientRowOf(t, acct)) ==
        if p.billedBy == "Per User" then p.basePrice + |UserIds(t.users, acct)| as real * p.perUserCost
        else if p.billedBy == "Per Device" then
          p.basePrice + |WorkstationIds(t.assets, acct)| as real * p.perWorkstationCost
            + |ServerIds(t.assets, acct)| as real * p.perServerCost
        else p.basePrice
  {
  }

  /** With no negative price in the plan, a bill is never below the base price. */
  lemma BillAtLeastBase(r: ClientRow)
    requires r.perUserCost >= 0.0 && r.perServerCost >= 0.0 && r.perWorkstationCost >= 0.0
    ensures TotalBill(r) >= r.basePrice
  {
  }

  /** A bill grows with each count when the unit cost it is multiplied by is positive. */
  lemma BillMonotone(r: ClientRow, users: nat, servers: nat, workstations: nat)
    requires r.perUserCost >= 0.0 && r.perServerCost >= 0.0 && r.perWorkstationCost >= 0.0
    requires r.userCount <= users && r.serverCount <= servers && r.workstationCount <= workstations
    ensures TotalBill(r) <= TotalBill(r.(userCount := users, serverCount := servers, workstationCount := workstations))
  {
    var r' := r.(userCount := users, serverCount := servers, workstationCount := workstations);
    if r.billedBy == "Per User" {
      assert (users - r.userCount) as real * r.perUserCost >= 0.0;
      assert r'.userCount as real * r.perUserCost == r.userCount as real * r.perUserCost + (users - r.userCount) as real * r.perUserCost;
    } else if r.billedBy == "Per Device" {
      assert (workstations - r.workstationCount) as real * r.perWorkstationCost >= 0.0;
      assert (servers - r.serverCount) as real * r.perServerCost >= 0.0;
      assert r'.workstationCount as real * r.perWorkstationCost ==
        r.workstationCount as real * r.perWorkstationCost + (workstations - r.workstationCount) as real * r.perWorkstationCost;
      assert r'.serverCount as real * r.perServerCost ==
        r.serverCount as real * r.perServerCost + (servers - r.serverCount) as real * r.perServerCost;
    }
  }

  /** Per User, base 50, 10 per user, 4 users: 90. Per Device, base 20, 2 servers at 15, 3 workstations at 5: 65. */
  lemma TotalExamples(r: ClientRow)
    ensures TotalBill(r.(billedBy := "Per User", basePrice := 50.0, perUserCost := 10.0, userCount := 4)) == 90.0
    ensures TotalBill(r.(billedBy := "Per Device", basePrice := 20.0, perServerCost := 15.0, serverCount := 2,
                         perWorkstationCost := 5.0, workstationCount := 3)) == 65.0
  {
  }

  // ===========================================================================
  // The settings page

  /** One row of the plans view of the settings page. */
  datatype PlanView = PlanView(
    contractType: string,
    billingPlan: string,
    billedBy: string,
    basePrice: real,
    perUserCost: real,
    perServerCost: real,
    perWorkstationCost: real)

  /** The view row of a pair some company uses: its plan, or 'Per Device' at zero cost. */
  function PlanViewOf(t: Tables, key: PlanKey): (v: PlanView)
    ensures v.contractType == key.0 && v.billingPlan == key.1
    ensures key in t.plans ==>
      var p := t.plans[key];
      && v.billedBy == p.billedBy && v.basePrice == p.basePrice && v.perUserCost == p.perUserCost
      && v.perServerCost == p.perServerCost && v.perWorkstationCost == p.perWorkstationCost
    ensures key !in t.plans ==>
      && v.billedBy == "Per Device" && v.basePrice == 0.0 && v.perUserCost == 0.0
      && v.perServerCost == 0.0 && v.perWorkstationCost == 0.0
  {
    if key in t.plans then
      var p := t.plans[key];
      PlanView(key.0, key.1, p.billedBy, p.basePrice, p.perUserCost, p.perServerCost, p.perWorkstationCost)
    else PlanView(key.0, key.1, "Per Device", 0.0, 0.0, 0.0, 0.0)
  }

  /** ORDER BY contract_type, billing_plan. */
  predicate PairLe(a: PlanKey, b: PlanKey)
  {
    StrLe(a.0, b.0) && (a.0 == b.0 ==> StrLe(a.1, b.1))
  }

  /** The plan a company is billed under. */
  function PairOf(c: Company): PlanKey
  {
    (c.contractType, c.billingPlan)
  }

  function ViewKey(v: PlanView): PlanKey
  {
    (v.contractType, v.billingPlan)
  }

  /** The pairs some company is billed under. */
  function UsedPairs(t: Tables): set<PlanKey>
  {
    set k | k in t.companies :: PairOf(t.companies[k])
  }

  /**
   * `rows` is a result of the settings query on `t`: one row per distinct pair that some
   * company uses, and no other, in ascending pair order.
   */
  ghost predicate IsPlansQuery(t: Tables, rows: seq<PlanView>)
  {
    IsPlanRowsFor(t, UsedPairs(t), rows)
  }

  /** The pairs the rows are about. */
  function RowKeys(rows: seq<PlanView>): set<PlanKey>
  {
    set i | 0 <= i < |rows| :: ViewKey(rows[i])
  }

  /** No pair has two rows. */
  predicate DistinctPairs(rows: seq<PlanView>)
  {
    forall i, j :: 0 <= i < j < |rows| ==> ViewKey(rows[i]) != ViewKey(rows[j])
  }

  /** The rows are in ascending pair order. */
  predicate SortedByPair(rows: seq<PlanView>)
  {
    forall i, j :: 0 <= i < j < |rows| ==> PairLe(ViewKey(rows[i]), ViewKey(rows[j]))
  }

  /** `rows` holds the view row of every pair in `keys` and of no other, once each, in pair order. */
  ghost predicate IsPlanRowsFor(t: Tables, keys: set<PlanKey>, rows: seq<PlanView>)
  {
    && (forall i :: 0 <= i < |rows| ==> rows[i] == PlanViewOf(t, ViewKey(rows[i])))
    && RowKeys(rows) == keys
    && DistinctPairs(rows)
    && SortedByPair(rows)
  }

  lemma PairLeTotal(a: PlanKey, b: PlanKey)
    ensures PairLe(a, b) || PairLe(b, a)
  {
    StrLeTotal(a.0, b.0);
    StrLeTotal(a.1, b.1);
  }

  lemma PairLeTrans(a: PlanKey, b: PlanKey, c: PlanKey)
    requires PairLe(a, b) && PairLe(b, c)
    ensures PairLe(a, c)
  {
    StrLeTrans(a.0, b.0, c.0);
    if a.0 == c.0 {
      StrLeAntisym(a.0, b.0);
      StrLeTrans(a.1, b.1, c.1);
    }
  }

  /** `k` is least in `keys` except perhaps for `k0`; one of the two is least. */
  lemma MinPairWithOne(keys: set<PlanKey>, k0: PlanKey, k: PlanKey)
    requires k0 in keys && k in keys
    requires forall k' :: k' in keys && k' != k0 ==> PairLe(k, k')
    ensures exists m :: m in keys && forall k' :: k' in keys ==> PairLe(m, k')
  {
    StrLeRefl(k0.0);
    StrLeRefl(k0.1);
    PairLeTotal(k0, k);
    if PairLe(k0, k) {
      forall k' | k' in keys ensures PairLe(k0, k') {
        if k' != k0 {
          PairLeTrans(k0, k, k');
        }
      }
    } else {
      assert forall k' :: k' in keys ==> PairLe(k, k');
    }
  }

  /** A non-empty set of pairs has a least pair. */
  lemma {:induction false} MinPairExists(keys: set<PlanKey>)
    requires keys != {}
    ensures exists m :: m in keys && forall k' :: k' in keys ==> PairLe(m, k')
    decreases |keys|
  {
    var k0 :| k0 in keys;
    var rest := keys - {k0};
    if rest == {} {
      forall k' | k' in keys ensures k' == k0 {
        assert k' !in rest;
      }
      MinPairWithOne(keys, k0, k0);
    } else {
      MinPairExists(rest);
      var k :| k in rest && forall k' :: k' in rest ==> PairLe(k, k');
      MinPairWithOne(keys, k0, k);
    }
  }

  lemma ConsKeys(row: PlanView, tail: seq<PlanView>)
    ensures RowKeys([row] + tail) == {ViewKey(row)} + RowKeys(tail)
  {
    var rows := [row] + tail;
    forall x | x in RowKeys(rows) ensures x in {ViewKey(row)} + RowKeys(tail) {
      var i :| 0 <= i < |rows| && ViewKey(rows[i]) == x;
      if i > 0 {
        assert tail[i - 1] == rows[i];
      }
    }
    forall x | x in RowKeys(tail) ensures x in RowKeys(rows) {
      var i :| 0 <= i < |tail| && ViewKey(tail[i]) == x;
      assert rows[i + 1] == tail[i];
    }
    assert rows[0] == row;
  }

  lemma ConsPairsOrdered(row: PlanView, tail: seq<PlanView>)
    requires DistinctPairs(tail) && SortedByPair(tail) && ViewKey(row) !in RowKeys(tail)
    requires forall j :: 0 <= j < |tail| ==> PairLe(ViewKey(row), ViewKey(tail[j]))
    ensures DistinctPairs([row] + tail) && SortedByPair([row] + tail)
  {
    var rows := [row] + tail;
    assert forall i :: 1 <= i < |rows| ==> rows[i] == tail[i - 1];
  }

  /** The row of a least pair, followed by the rows of the other pairs, holds the rows of all. */
  lemma PlanRowsCons(t: Tables, keys: set<PlanKey>, k: PlanKey, tail: seq<PlanView>)
    requires k in keys && forall k' :: k' in keys ==> PairLe(k, k')
    requires IsPlanRowsFor(t, keys - {k}, tail)
    ensures IsPlanRowsFor(t, keys, [PlanViewOf(t, k)] + tail)
  {
    var row := PlanViewOf(t, k);
    var rows := [row] + tail;
    assert ViewKey(row) == k;
    ConsKeys(row, tail);
    forall j | 0 <= j < |tail| ensures PairLe(k, ViewKey(tail[j])) {
      assert ViewKey(tail[j]) in RowKeys(tail);
    }
    ConsPairsOrdered(row, tail);
    assert forall i :: 1 <= i < |rows| ==> rows[i] == tail[i - 1];
  }

  /** Any finite set of pairs has rows listing it. */
  lemma {:induction false} PlanRowsExist(t: Tables, keys: set<PlanKey>)
    ensures exists rows :: IsPlanRowsFor(t, keys, rows)
    decreases |keys|
  {
    if keys == {} {
      assert IsPlanRowsFor(t, keys, []);
      return;
    }
    MinPairExists(keys);
    var k :| k in keys && forall k' :: k' in keys ==> PairLe(k, k');
    PlanRowsExist(t, keys - {k});
    var tail: seq<PlanView> :| IsPlanRowsFor(t, keys - {k}, tail);
    PlanRowsCons(t, keys, k, tail);
  }

  /** The settings query has a result on every store. */
  lemma PlansQueryExists(t: Tables)
    ensures exists rows :: IsPlansQuery(t, rows)
  {
    PlanRowsExist(t, UsedPairs(t));
    var rows: seq<PlanView> :| IsPlanRowsFor(t, UsedPairs(t), rows);
    assert IsPlansQuery(t, rows);
  }

  /**
   * The two pages disagree on a pair without a plan: the settings page shows it as
   * 'Per Device' while the dashboard bills its companies as 'Not Configured'.
   */
  lemma DefaultsDisagree(t: Tables, acct: string, rows: seq<PlanView>)
    requires acct in t.companies && IsPlansQuery(t, rows)
    requires PairOf(t.companies[acct]) !in t.plans
    ensures exists i :: 0 <= i < |rows| && ViewKey(rows[i]) == PairOf(t.companies[acct]) && rows[i].billedBy == "Per Device"
    ensures ClientRowOf(t, acct).billedBy == "Not Configured"
  {
    assert PairOf(t.companies[acct]) in RowKeys(rows);
    var i :| 0 <= i < |rows| && ViewKey(rows[i]) == PairOf(t.companies[acct]);
    assert rows[i] == PlanViewOf(t, ViewKey(rows[i]));
  }

  // ---------------------------------------------------------------------------
  // Saving the form

  predicate StartsWith(s: string, prefix: string)
  {
    |prefix| <= |s| && s[..|prefix|] == prefix
  }

  /** The number of plans posted: the form keys that begin with "billed_by_". */
  function PlanCount(form: map<string, string>): nat
  {
    |set k | k in form && StartsWith(k, "billed_by_")|
  }

  /** A form field: its text, or None when the form lacks it. */
  function FormGet(form: map<string, string>, name: string): Option<string>
  {
    if name in form then Some(form[name]) else None
  }

  /** A price field: 0.0 when absent, the parsed number otherwise, None when parsing fails. */
  function FormPrice(form: map<string, string>, parse: string -> Option<real>, name: string): Option<real>
  {
    if name in form then parse(form[name]) else Some(0.0)
  }

  /** The tuple of plan number i, or None when one of its prices does not parse. */
  function FormPlan(form: map<string, string>, parse: string -> Option<real>, i: nat): (r: Option<PlanRecord>)
    ensures r.Some? <==>
      && FormPrice(form, parse, "base_price_" + Decimal(i)).Some?
      && FormPrice(form, parse, "per_user_cost_" + Decimal(i)).Some?
      && FormPrice(form, parse, "per_server_cost_" + Decimal(i)).Some?
      && FormPrice(form, parse, "per_workstation_cost_" + Decimal(i)).Some?
    ensures r.Some? ==>
      && r.value.contractType == FormGet(form, "contract_type_" + Decimal(i))
      && r.value.billingPlan == FormGet(form, "billing_plan_" + Decimal(i))
      && r.value.billedBy == FormGet(form, "billed_by_" + Decimal(i))
  {
    var n := Decimal(i);
    var base := FormPrice(form, parse, "base_price_" + n);
    var perUser := FormPrice(form, parse, "per_user_cost_" + n);
    var perServer := FormPrice(form, parse, "per_server_cost_" + n);
    var perWorkstation := FormPrice(form, parse, "per_workstation_cost_" + n);
    if base.None? || perUser.None? || perServer.None? || perWorkstation.None? then None
    else
      Some(PlanRecord(FormGet(form, "contract_type_" + n), FormGet(form, "billing_plan_" + n),
                      FormGet(form, "billed_by_" + n), base.value, perUser.value, perServer.value, perWorkstation.value))
  }

  /** The tuples of plans 1..n, or None when any of their prices does not parse. */
  function FormPlans(form: map<string, string>, parse: string -> Option<real>, n: nat): (r: Option<seq<PlanRecord>>)
    ensures r.Some? <==> forall i :: 1 <= i <= n ==> FormPlan(form, parse, i).Some?
    ensures r.Some? ==> |r.value| == n && forall i :: 1 <= i <= n ==> r.value[i - 1] == FormPlan(form, parse, i).value
    decreases n
  {
    if n == 0 then Some([])
    else
      match FormPlans(form, parse, n - 1)
      case None => None
      case Some(init) =>
        match FormPlan(form, parse, n)
        case None => None
        case Some(p) => Some(init + [p])
  }

  /** The list-building loop of `billing_settings`. */
  method PlansFromForm(form: map<string, string>, parse: string -> Option<real>) returns (plans: Option<seq<PlanRecord>>)
    ensures plans == FormPlans(form, parse, PlanCount(form))
  {
    var count := PlanCount(form);
    var acc: seq<PlanRecord> := [];
    for i := 1 to count + 1
      invariant FormPlans(form, parse, i - 1) == Some(acc)
    {
      var record := FormPlan(form, parse, i);
      if record.None? {
        assert forall m :: m >= i ==> FormPlans(form, parse, m).None?;
        return None;
      }
      acc := acc + [record.value];
    }
    return Some(acc);
  }

  datatype SaveOutcome =
    | Saved          // every plan written and committed
    | InvalidNumber  // a price did not parse: nothing is written
    | Rejected       // a plan lacks contract_type, billing_plan or billed_by: nothing is kept

  /** The POST branch of `billing_settings`. */
  method SaveSettings(db: Database, form: map<string, string>, parse: string -> Option<real>) returns (outcome: SaveOutcome)
    requires db.Valid()
    modifies db
    ensures db.Valid()
    ensures outcome == InvalidNumber <==> FormPlans(form, parse, PlanCount(form)).None?
    ensures outcome == Saved <==>
      FormPlans(form, parse, PlanCount(form)).Some? && ReplacePlans(old(db.plans), FormPlans(form, parse, PlanCount(form)).value).Ok?
    ensures outcome == Saved ==>
      db.Contents() == old(db.Contents()).(plans := ReplacePlans(old(db.plans), FormPlans(form, parse, PlanCount(form)).value).value)
    ensures outcome != Saved ==> db.Contents() == old(db.Contents())
  {
    var plans := PlansFromForm(form, parse);
    if plans.None? {
      return InvalidNumber;
    }
    var saved := db.Contents();
    var ok := db.ReplacePlanBatch(plans.value);
    if !ok {
      db.Restore(saved);
      return Rejected;
    }
    return Saved;
  }

  /**
   * Saving a well-formed form stores, for each posted pair, the plan of the last form entry
   * with that pair, and leaves every other pair's plan as it was.
   */
  lemma SavedPlans(t: PlanTable, form: map<string, string>, parse: string -> Option<real>,
                   batch: seq<PlanRecord>, k: PlanKey)
    requires FormPlans(form, parse, PlanCount(form)) == Some(batch)
    requires forall i :: 0 <= i < |batch| ==> FilledPlan(batch[i])
    ensures ReplacePlans(t, batch).Ok?
    ensures match LastPlanIndex(batch, k)
      case Some(i) =>
        && FormPlan(form, parse, i + 1) == Some(batch[i])
        && k in ReplacePlans(t, batch).value && ReplacePlans(t, batch).value[k] == PlanOf(batch[i])
      case None =>
        && (k in ReplacePlans(t, batch).value <==> k in t)
        && (k in t ==> ReplacePlans(t, batch).value[k] == t[k])
  {
    ReplacePlansEffect(t, batch, k);
    match LastPlanIndex(batch, k)
    case Some(i) =>
      assert 1 <= i + 1 <= PlanCount(form);
    case None =>
  }
}
