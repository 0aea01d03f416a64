/**
 * The Datto RMM sync: fetch every site by following next-page URLs, read each site's
 * `AccountNumber` variable, fetch the site's devices, turn every device into an asset
 * record carrying the site's account number, and upsert the whole batch in one
 * transaction.
 *
 * The HTTP layer is an oracle: `respond(url)` is the answer to a GET of that URL, and
 * `variables(uid)` the answer to the variables request of site `uid`. The bearer token is
 * taken as already obtained. Every fetch loop takes `fuel`, the largest number of
 * requests it may issue; OutOfFuel stands for a loop that never finishes.
 */
module Datto {
  import opened Common
  import opened Store

  // ===========================================================================
  // API records, as far as the sync reads them

  datatype PageDetails = PageDetails(nextPageUrl: Option<string>)

  /**
   * A collection page. A list member is None when absent or null; `pageDetails` is None
   * when absent.
   */
  datatype Envelope<T> = Envelope(
    items: Option<seq<T>>,
    sites: Option<seq<T>>,
    devices: Option<seq<T>>,
    pageDetails: Option<PageDetails>,
    nextPageUrl: Option<string>)

  /** A 2xx JSON answer, or a failure (transport error, non-2xx status, body that is not JSON). */
  datatype Response<T> = Answer(body: Envelope<T>) | Failed

  datatype Site = Site(uid: Option<string>, name: Option<string>)

  datatype DeviceType = DeviceType(category: Option<string>)

  /** A device; `creationDate` is milliseconds since the epoch. */
  datatype Device = Device(
    uid: Option<string>,
    hostname: Option<string>,
    description: Option<string>,
    deviceType: Option<DeviceType>,
    operatingSystem: Option<string>,
    creationDate: Option<int>)

  datatype Variable = Variable(name: Option<string>, value: Option<string>)

  /** The answer to a site's variables request: 404, another failure, or the variable list. */
  datatype VariablesResponse = VarsNotFound | VarsFailed | Vars(vars: seq<Variable>)

  const AccountVariable := "AccountNumber"

  // ===========================================================================
  // make_api_request

  /**
   * The items of a page: the first non-empty list among `items` and `sites`, else whatever
   * `devices` holds (possibly [] or None).
   */
  function PageItems<T>(e: Envelope<T>): (r: Option<seq<T>>)
    ensures e.items.Some? && e.items.value != [] ==> r == e.items
    ensures !(e.items.Some? && e.items.value != []) && e.sites.Some? && e.sites.value != [] ==> r == e.sites
    ensures !(e.items.Some? && e.items.value != []) && !(e.sites.Some? && e.sites.value != []) ==> r == e.devices
  {
    if e.items.Some? && e.items.value != [] then e.items
    else if e.sites.Some? && e.sites.value != [] then e.sites
    else e.devices
  }

  /** The next URL: the one nested under `pageDetails` when non-empty, else the top-level one. */
  function NextUrl<T>(e: Envelope<T>): Option<string>
  {
    var nested := if e.pageDetails.Some? then e.pageDetails.value.nextPageUrl else None;
    if TruthyStr(nested) then nested else e.nextPageUrl
  }

  /**
   * The result of the loop while `next_page_url` is `next`, with at most `fuel` requests
   * left. A page whose items are None ends the loop with what was gathered so far.
   */
  function FollowFrom<T>(respond: string -> Response<T>, next: Option<string>, fuel: nat): Fetched<T>
    decreases fuel
  {
    if !TruthyStr(next) then Fetched([])
    else if fuel == 0 then OutOfFuel
    else
      match respond(next.value)
      case Failed => FetchFailed
      case Answer(e) =>
        match PageItems(e)
        case None => Fetched([])
        case Some(items) => Prepend(items, FollowFrom(respond, NextUrl(e), fuel - 1))
  }

  /** The URLs the loop requests, in order. */
  function Requests<T>(respond: string -> Response<T>, next: Option<string>, fuel: nat): seq<string>
    decreases fuel
  {
    if !TruthyStr(next) || fuel == 0 then []
    else
      match respond(next.value)
      case Failed => [next.value]
      case Answer(e) =>
        if PageItems(e).None? then [next.value] else [next.value] + Requests(respond, NextUrl(e), fuel - 1)
  }

  /** The items one URL contributes. */
  function ItemsAt<T>(respond: string -> Response<T>, url: string): seq<T>
  {
    if respond(url).Answer? && PageItems(respond(url).body).Some? then PageItems(respond(url).body).value else []
  }

  function Gathered<T>(respond: string -> Response<T>, urls: seq<string>): seq<T>
    decreases |urls|
  {
    if urls == [] then [] else ItemsAt(respond, urls[0]) + Gathered(respond, urls[1..])
  }

  /** The loop requests at most `fuel` URLs, the start URL first, each next one named by the page before. */
  lemma {:induction false} ChainLinks<T>(respond: string -> Response<T>, next: Option<string>, fuel: nat)
    ensures var urls := Requests(respond, next, fuel);
      && |urls| <= fuel
      && (urls != [] ==> next == Some(urls[0]))
      && (forall i :: 0 <= i < |urls| - 1 ==>
            respond(urls[i]).Answer? && PageItems(respond(urls[i]).body).Some?
            && NextUrl(respond(urls[i]).body) == Some(urls[i + 1]))
    decreases fuel
  {
    if !TruthyStr(next) || fuel == 0 {
      return;
    }
    var urls := Requests(respond, next, fuel);
    match respond(next.value)
    case Failed =>
    case Answer(e) =>
      if PageItems(e).Some? {
        var rest := Requests(respond, NextUrl(e), fuel - 1);
        ChainLinks(respond, NextUrl(e), fuel - 1);
        assert urls == [next.value] + rest;
        assert forall i :: 1 <= i < |urls| ==> urls[i] == rest[i - 1];
      }
  }

  /** A finished loop returns the items of the requested URLs; it fails exactly when the last request did. */
  lemma {:induction false} ChainItems<T>(respond: string -> Response<T>, next: Option<string>, fuel: nat)
    ensures var urls := Requests(respond, next, fuel);
      && (FollowFrom(respond, next, fuel).Fetched? ==> FollowFrom(respond, next, fuel).items == Gathered(respond, urls))
      && (FollowFrom(respond, next, fuel).FetchFailed? <==> urls != [] && respond(urls[|urls| - 1]).Failed?)
    decreases fuel
  {
    if !TruthyStr(next) || fuel == 0 {
      return;
    }
    var urls := Requests(respond, next, fuel);
    match respond(next.value)
    case Failed =>
    case Answer(e) =>
      if PageItems(e).Some? {
        var rest := Requests(respond, NextUrl(e), fuel - 1);
        ChainItems(respond, NextUrl(e), fuel - 1);
        assert urls == [next.value] + rest;
        assert Gathered(respond, urls) == ItemsAt(respond, next.value) + Gathered(respond, rest);
        if rest != [] {
          assert urls[|urls| - 1] == rest[|rest| - 1];
        }
      }
  }

  /**
   * The loop requests the start URL first and then, after each page that has items, the
   * URL that page names next (nested `pageDetails.nextPageUrl` first, top-level
   * `nextPageUrl` otherwise). A finished fetch returns the items of the requested pages
   * concatenated in request order; it fails exactly when the last request failed, and a
   * failure carries no items.
   */
  lemma FollowChain<T>(respond: string -> Response<T>, next: Option<string>, fuel: nat)
    ensures var urls := Requests(respond, next, fuel);
      && |urls| <= fuel
      && (urls != [] ==> next == Some(urls[0]))
      && (forall i :: 0 <= i < |urls| - 1 ==>
            respond(urls[i]).Answer? && PageItems(respond(urls[i]).body).Some?
            && NextUrl(respond(urls[i]).body) == Some(urls[i + 1]))
      && (FollowFrom(respond, next, fuel).Fetched? ==> FollowFrom(respond, next, fuel).items == Gathered(respond, urls))
      && (FollowFrom(respond, next, fuel).FetchFailed? <==> urls != [] && respond(urls[|urls| - 1]).Failed?)
  {
    ChainLinks(respond, next, fuel);
    ChainItems(respond, next, fuel);
  }

  /** `make_api_request(endpoint, token, path)`, with at most `fuel` requests. */
  method MakeApiRequest<T>(respond: string -> Response<T>, endpoint: string, path: string, fuel: nat)
    returns (r: Fetched<T>)
    ensures r == FollowFrom(respond, Some(endpoint + "/api" + path), fuel)
  {
    var all: seq<T> := [];
    var next: Option<string> := Some(endpoint + "/api" + path);
    var left := fuel;
    while TruthyStr(next)
      invariant FollowFrom(respond, Some(endpoint + "/api" + path), fuel) == Prepend(all, FollowFrom(respond, next, left))
      decreases left
    {
      if left == 0 {
        return OutOfFuel;
      }
      var response := respond(next.value);
      if response.Failed? {
        return FetchFailed;
      }
      var items := PageItems(response.body);
      if items.None? {
        break;
      }
      PrependAssoc(all, items.value, FollowFrom(respond, NextUrl(response.body), left - 1));
      all := all + items.value;
      next := NextUrl(response.body);
      left := left - 1;
    }
    assert all + [] == all;
    return Fetched(all);
  }

  // ===========================================================================
  // get_site_variable

  /** The position of the first variable called `name`. */
  function FirstNamed(vs: seq<Variable>, name: string): (r: Option<nat>)
    ensures r.Some? ==> r.value < |vs| && vs[r.value].name == Some(name)
                        && forall j :: 0 <= j < r.value ==> vs[j].name != Some(name)
    ensures r.None? ==> forall j :: 0 <= j < |vs| ==> vs[j].name != Some(name)
    decreases |vs|
  {
    if vs == [] then None
    else if vs[0].name == Some(name) then Some(0)
    else
      match FirstNamed(vs[1..], name)
      case None => None
      case Some(j) => Some(j + 1)
  }

  /** The value of the first variable called `name`; None on 404, on failure or when absent. */
  function SiteVariable(response: VariablesResponse, name: string): Option<string>
  {
    match response
    case Vars(vs) => if FirstNamed(vs, name).Some? then vs[FirstNamed(vs, name).value].value else None
    case _ => None
  }

  /** `get_site_variable`: a linear search that returns at the first match. */
  method GetSiteVariable(response: VariablesResponse, name: string) returns (value: Option<string>)
    ensures value == SiteVariable(response, name)
  {
    if !response.Vars? {
      return None;
    }
    var vs := response.vars;
    var i := 0;
    while i < |vs|
      invariant 0 <= i <= |vs|
      invariant forall j :: 0 <= j < i ==> vs[j].name != Some(name)
    {
      if vs[i].name == Some(name) {
        assert FirstNamed(vs, name) == Some(i);
        return vs[i].value;
      }
      i := i + 1;
    }
    return None;
  }

  // ===========================================================================
  // The site and device loop of the main block

  /** The asset tuple of one device of a site whose account number is `account`. */
  function AssetOf(account: string, d: Device, iso: int -> string): (r: AssetRecord)
    ensures r.accountNumber == account && r.status == "Active"
    ensures r.dattoUid == d.uid && r.hostname == d.hostname && r.friendlyName == d.description
    ensures r.operatingSystem == d.operatingSystem
    ensures r.deviceType == (if d.deviceType.Some? then d.deviceType.value.category else None)
    ensures r.dateAdded.Some? <==> d.creationDate.Some? && d.creationDate.value != 0
  {
    AssetRecord(account, d.uid, d.hostname, d.description,
                if d.deviceType.Some? then d.deviceType.value.category else None,
                d.operatingSystem, "Active",
                if d.creationDate.Some? && d.creationDate.value != 0 then Some(iso(d.creationDate.value)) else None)
  }

  function AssetsOf(account: string, ds: seq<Device>, iso: int -> string): (r: seq<AssetRecord>)
    ensures |r| == |ds|
    ensures forall i :: 0 <= i < |ds| ==> r[i] == AssetOf(account, ds[i], iso)
    decreases |ds|
  {
    if ds == [] then [] else AssetsOf(account, ds[..|ds| - 1], iso) + [AssetOf(account, ds[|ds| - 1], iso)]
  }

  /** The URL path of a site's device list. */
  function DevicesPath(uid: string): string
  {
    "/v2/site/" + uid + "/devices"
  }

  /**
   * What one site contributes: nothing when it has no uid, no truthy AccountNumber variable,
   * or a failed or empty device fetch; otherwise one asset per device, in device order.
   */
  function SiteAssets(site: Site, variables: string -> VariablesResponse, devices: string -> Response<Device>,
                      endpoint: string, fuel: nat, iso: int -> string): Fetched<AssetRecord>
  {
    if !TruthyStr(site.uid) then Fetched([])
    else
      var account := SiteVariable(variables(site.uid.value), AccountVariable);
      if !TruthyStr(account) then Fetched([])
      else
        match FollowFrom(devices, Some(endpoint + "/api" + DevicesPath(site.uid.value)), fuel)
        case OutOfFuel => OutOfFuel
        case FetchFailed => Fetched([])
        case Fetched(ds) => Fetched(AssetsOf(account.value, ds, iso))
  }

  /** `a` followed by `b`; a loop that never finishes has no continuation. */
  function Then<T>(a: Fetched<T>, b: Fetched<T>): Fetched<T>
  {
    if a.Fetched? then Prepend(a.items, b) else a
  }

  /** The batch the site loop builds, sites in order. */
  function AssetsOfSites(sites: seq<Site>, variables: string -> VariablesResponse, devices: string -> Response<Device>,
                         endpoint: string, fuel: nat, iso: int -> string): (r: Fetched<AssetRecord>)
    ensures !r.FetchFailed?
    decreases |sites|
  {
    if sites == [] then Fetched([])
    else
      Then(AssetsOfSites(sites[..|sites| - 1], variables, devices, endpoint, fuel, iso),
           SiteAssets(sites[|sites| - 1], variables, devices, endpoint, fuel, iso))
  }

  lemma ThenAssoc<T>(a: Fetched<T>, b: Fetched<T>, c: Fetched<T>)
    ensures Then(Then(a, b), c) == Then(a, Then(b, c))
  {
    if a.Fetched? && b.Fetched? && c.Fetched? {
      assert a.items + b.items + c.items == a.items + (b.items + c.items);
    }
  }

  /** The batch of two runs of sites is the batch of the first followed by that of the second. */
  lemma {:induction false} AssetsOfSitesAppend(s1: seq<Site>, s2: seq<Site>, variables: string -> VariablesResponse,
                                               devices: string -> Response<Device>, endpoint: string, fuel: nat, iso: int -> string)
    ensures AssetsOfSites(s1 + s2, variables, devices, endpoint, fuel, iso) ==
      Then(AssetsOfSites(s1, variables, devices, endpoint, fuel, iso), AssetsOfSites(s2, variables, devices, endpoint, fuel, iso))
    decreases |s2|
  {
    var r1 := AssetsOfSites(s1, variables, devices, endpoint, fuel, iso);
    if s2 == [] {
      assert s1 + s2 == s1;
      if r1.Fetched? {
        assert r1.items + [] == r1.items;
      }
    } else {
      var init := s2[..|s2| - 1];
      var last := s2[|s2| - 1];
      assert (s1 + s2)[..|s1 + s2| - 1] == s1 + init;
      AssetsOfSitesAppend(s1, init, variables, devices, endpoint, fuel, iso);
      ThenAssoc(r1, AssetsOfSites(init, variables, devices, endpoint, fuel, iso),
                SiteAssets(last, variables, devices, endpoint, fuel, iso));
    }
  }

  /**
   * A site with no uid, no truthy AccountNumber variable, or a device fetch that failed or
   * found nothing contributes no assets, and the sites around it are processed as if it
   * were not there.
   */
  lemma SkippedSite(s1: seq<Site>, site: Site, s2: seq<Site>, variables: string -> VariablesResponse,
                    devices: string -> Response<Device>, endpoint: string, fuel: nat, iso: int -> string)
    requires
      || !TruthyStr(site.uid)
      || !TruthyStr(SiteVariable(variables(site.uid.value), AccountVariable))
      || FollowFrom(devices, Some(endpoint + "/api" + DevicesPath(site.uid.value)), fuel) in {FetchFailed, Fetched([])}
    ensures AssetsOfSites(s1 + [site] + s2, variables, devices, endpoint, fuel, iso) ==
            AssetsOfSites(s1 + s2, variables, devices, endpoint, fuel, iso)
  {
    assert SiteAssets(site, variables, devices, endpoint, fuel, iso) == Fetched([]);
    AssetsOfSitesAppend(s1 + [site], s2, variables, devices, endpoint, fuel, iso);
    AssetsOfSitesAppend(s1, s2, variables, devices, endpoint, fuel, iso);
    assert (s1 + [site])[..|s1 + [site]| - 1] == s1;
    var r1 := AssetsOfSites(s1, variables, devices, endpoint, fuel, iso);
    if r1.Fetched? {
      assert r1.items + [] == r1.items;
    }
  }

  /**
   * Every record of a finished batch comes from a device of a processed site: it carries
   * a non-empty account number, which is that site's AccountNumber variable, and status
   * 'Active'.
   */
  lemma {:induction false} AssetsCarryAccounts(sites: seq<Site>, variables: string -> VariablesResponse,
                                               devices: string -> Response<Device>, endpoint: string, fuel: nat, iso: int -> string)
    requires AssetsOfSites(sites, variables, devices, endpoint, fuel, iso).Fetched?
    ensures forall r :: r in AssetsOfSites(sites, variables, devices, endpoint, fuel, iso).items ==>
      && r.accountNumber != "" && r.status == "Active"
      && exists k :: 0 <= k < |sites| && sites[k].uid.Some?
           && SiteVariable(variables(sites[k].uid.value), AccountVariable) == Some(r.accountNumber)
    decreases |sites|
  {
    if sites != [] {
      var init := sites[..|sites| - 1];
      var last := sites[|sites| - 1];
      AssetsCarryAccounts(init, variables, devices, endpoint, fuel, iso);
      var a := AssetsOfSites(init, variables, devices, endpoint, fuel, iso).items;
      var b := SiteAssets(last, variables, devices, endpoint, fuel, iso).items;
      forall r: AssetRecord | r in a + b
        ensures && r.accountNumber != "" && r.status == "Active"
                && exists k :: 0 <= k < |sites| && sites[k].uid.Some?
                     && SiteVariable(variables(sites[k].uid.value), AccountVariable) == Some(r.accountNumber)
      {
        if r in a {
          var k :| 0 <= k < |init| && init[k].uid.Some?
                   && SiteVariable(variables(init[k].uid.value), AccountVariable) == Some(r.accountNumber);
          assert sites[k] == init[k];
        } else {
          var i :| 0 <= i < |b| && b[i] == r;
          assert sites[|sites| - 1] == last;
        }
      }
    }
  }

  /**
   * One pass of the site loop: what the site adds to `assets_to_insert`, the device records
   * appended one by one in device order.
   */
  method ProcessSite(site: Site, variables: string -> VariablesResponse, devices: string -> Response<Device>,
                     endpoint: string, fuel: nat, iso: int -> string) returns (r: Fetched<AssetRecord>)
    ensures r == SiteAssets(site, variables, devices, endpoint, fuel, iso)
  {
    if !TruthyStr(site.uid) {
      return Fetched([]);
    }
    var account := GetSiteVariable(variables(site.uid.value), AccountVariable);
    if !TruthyStr(account) {
      return Fetched([]);
    }
    var found := MakeApiRequest(devices, endpoint, DevicesPath(site.uid.value), fuel);
    if found.OutOfFuel? {
      return OutOfFuel;
    }
    if found.FetchFailed? || found.items == [] {
      return Fetched([]);
    }
    var ds := found.items;
    var added: seq<AssetRecord> := [];
    var j := 0;
    while j < |ds|
      invariant 0 <= j <= |ds|
      invariant added == AssetsOf(account.value, ds[..j], iso)
    {
      assert ds[..j + 1][..j] == ds[..j];
      added := added + [AssetOf(account.value, ds[j], iso)];
      j := j + 1;
    }
    assert ds[..j] == ds;
    return Fetched(added);
  }

  /**
   * The site loop of the main block: builds `assets_to_insert`, skipping sites, and stops
   * only when a device fetch never finishes.
   */
  method BuildAssets(sites: seq<Site>, variables: string -> VariablesResponse, devices: string -> Response<Device>,
                     endpoint: string, fuel: nat, iso: int -> string) returns (r: Fetched<AssetRecord>)
    ensures r == AssetsOfSites(sites, variables, devices, endpoint, fuel, iso)
  {
    var batch: seq<AssetRecord> := [];
    var i := 0;
    while i < |sites|
      invariant 0 <= i <= |sites|
      invariant AssetsOfSites(sites[..i], variables, devices, endpoint, fuel, iso) == Fetched(batch)
    {
      assert sites[..i + 1][..i] == sites[..i];
      var part := ProcessSite(sites[i], variables, devices, endpoint, fuel, iso);
      i := i + 1;
      if part.OutOfFuel? {
        AssetsOfSitesAppend(sites[..i], sites[i..], variables, devices, endpoint, fuel, iso);
        assert sites[..i] + sites[i..] == sites;
        return OutOfFuel;
      }
      batch := batch + part.items;
    }
    assert sites[..i] == sites;
    return Fetched(batch);
  }

  // ===========================================================================
  // populate_assets_database and the main block

  datatype Outcome =
    | Unfinished      // a fetch loop is still running when the fuel runs out
    | Aborted         // the sites list could not be fetched
    | NothingToStore  // no asset was built: the store is not opened
    | RolledBack      // a constraint failed in the asset upsert
    | Committed

  /** The outcome of a run and the store it leaves, given the sites fetch and the batch built. */
  function SyncEffect(t: Tables, sites: Fetched<Site>, batch: Fetched<AssetRecord>): (r: (Outcome, Tables))
    requires TablesValid(t)
    ensures TablesValid(r.1)
    ensures r.0 != Committed ==> r.1 == t
    ensures r.0 == Committed <==>
      sites.Fetched? && batch.Fetched? && batch.items != [] && UpsertAssets(t.assets, batch.items).Ok?
    ensures r.0 == Committed ==> r.1 == t.(assets := UpsertAssets(t.assets, batch.items).value)
  {
    if sites.OutOfFuel? then (Unfinished, t)
    else if sites.FetchFailed? then (Aborted, t)
    else if batch.OutOfFuel? then (Unfinished, t)
    else if !batch.Fetched? || batch.items == [] then (NothingToStore, t)
    else
      match UpsertAssets(t.assets, batch.items)
      case Err(_) => (RolledBack, t)
      case Ok(rows) => (Committed, t.(assets := rows))
  }

  /**
   * A run commits without looking at the companies table: an asset can be stored under
   * an account number that no company row has.
   */
  lemma DanglingAssetExample(variables: string -> VariablesResponse, devices: string -> Response<Device>,
                             endpoint: string, fuel: nat, iso: int -> string)
    requires fuel >= 1
    requires variables("s-1") == Vars([Variable(Some(AccountVariable), Some("A-100"))])
    requires devices(endpoint + "/api" + DevicesPath("s-1")) ==
      Answer(Envelope(None, None, Some([Device(Some("d-1"), Some("host"), None, None, None, Some(1))]), None, None))
    ensures var t := Tables(map[], [], [], map[]);
      var site := Site(Some("s-1"), Some("Main office"));
      var batch := AssetsOfSites([site], variables, devices, endpoint, fuel, iso);
      && SyncEffect(t, Fetched([site]), batch).0 == Committed
      && |SyncEffect(t, Fetched([site]), batch).1.assets| == 1
      && SyncEffect(t, Fetched([site]), batch).1.assets[0].accountNumber == "A-100"
      && "A-100" !in SyncEffect(t, Fetched([site]), batch).1.companies
  {
    var site := Site(Some("s-1"), Some("Main office"));
    var d := Device(Some("d-1"), Some("host"), None, None, None, Some(1));
    var url := endpoint + "/api" + DevicesPath("s-1");
    assert FirstNamed([Variable(Some(AccountVariable), Some("A-100"))], AccountVariable) == Some(0);
    assert SiteVariable(variables("s-1"), AccountVariable) == Some("A-100");
    assert FollowFrom(devices, Some(url), fuel) == Fetched([d]);
    var rec := AssetOf("A-100", d, iso);
    assert AssetsOf("A-100", [d], iso) == [rec];
    assert SiteAssets(site, variables, devices, endpoint, fuel, iso) == Fetched([rec]);
    assert [site][..0] == [];
    assert AssetsOfSites([site], variables, devices, endpoint, fuel, iso) == Fetched([rec]);
    assert UpsertAssets([], [rec]) == UpsertAsset([], rec);
  }

  /** `populate_assets_database`: one transaction, committed, or rolled back on a constraint error. */
  method PopulateAssets(db: Database, batch: seq<AssetRecord>) returns (ok: bool)
    requires db.Valid()
    modifies db
    ensures db.Valid()
    ensures ok <==> UpsertAssets(old(db.assets), batch).Ok?
    ensures ok ==> db.Contents() == old(db.Contents()).(assets := UpsertAssets(old(db.assets), batch).value)
    ensures !ok ==> db.Contents() == old(db.Contents())
  {
    var saved := db.Contents();
    ok := db.UpsertAssetBatch(batch);
    if !ok {
      db.Restore(saved);
    }
  }

  /** The main block of the Datto sync against the store `db`. */
  method SyncDatto(db: Database, siteApi: string -> Response<Site>, variables: string -> VariablesResponse,
                   devices: string -> Response<Device>, endpoint: string, fuel: nat, iso: int -> string)
    returns (outcome: Outcome)
    requires db.Valid()
    modifies db
    ensures db.Valid()
    ensures var sites := FollowFrom(siteApi, Some(endpoint + "/api/v2/account/sites"), fuel);
      (outcome, db.Contents()) ==
        SyncEffect(old(db.Contents()), sites,
                   if sites.Fetched? then AssetsOfSites(sites.items, variables, devices, endpoint, fuel, iso) else Fetched([]))
  {
    var sites := MakeApiRequest(siteApi, endpoint, "/v2/account/sites", fuel);
    assert endpoint + "/api" + "/v2/account/sites" == endpoint + "/api/v2/account/sites";
    if sites.OutOfFuel? {
      return Unfinished;
    }
    if sites.FetchFailed? {
      return Aborted;
    }
    var batch := BuildAssets(sites.items, variables, devices, endpoint, fuel, iso);
    if batch.OutOfFuel? {
      return Unfinished;
    }
    if batch.items == [] {
      return NothingToStore;
    }
    var ok := PopulateAssets(db, batch.items);
    outcome := if ok then Committed else RolledBack;
  }
}
