/**
 * The Freshservice sync: fetch every department (company) and every requester (user)
 * page by page, turn departments with an account number into company rows, link each
 * requester to the first of its departments that resolves to an account number, and
 * upsert both batches in one transaction.
 *
 * The HTTP layer is an oracle. `departments(p)` is the answer to the request for page p;
 * `requesters(p, a)` is the answer to the request for page p after `a` earlier
 * "429 Too Many Requests" answers for that same page. Every fetch loop takes `fuel`, the
 * largest number of requests it may issue; a loop that runs out of fuel reports OutOfFuel,
 * standing for a run that never finishes.
 */
module Freshservice {
  import opened Common
  import opened Store

  // ===========================================================================
  // API records, as far as the sync reads them

  /**
   * The `custom_fields` object of a department. A department without it reads as `{}`:
   * every field Missing and an account number of None.
   */
  datatype CustomFields = CustomFields(
    accountNumber: Scalar,
    typeOfClient: Field<string>,
    planSelected: Field<string>)

  datatype Department = Department(
    id: Option<int>,
    name: Option<string>,
    customFields: CustomFields)

  /** A requester; `departmentIds` is `department_ids or []`, so a null list is empty. */
  datatype Requester = Requester(
    id: Option<int>,
    firstName: Field<string>,
    lastName: Field<string>,
    primaryEmail: Option<string>,
    active: Scalar,
    createdAt: Field<string>,
    departmentIds: seq<Option<int>>)

  /**
   * One HTTP answer: a 2xx page (its list, or [] when the list key is absent), a 429 with
   * the integer value of its Retry-After header if any, or any other failure
   * (transport error, other non-2xx status, body that is not JSON).
   */
  datatype PageResponse<T> = Page(items: seq<T>) | RateLimited(retryAfter: Option<nat>) | Failed

  // ===========================================================================
  // get_all_companies: page numbers from 1, stop at the first empty page

  /**
   * The result of the page loop started at `page` with at most `fuel` requests left.
   * A 429 is not retried here: `raise_for_status` turns it into a failure.
   */
  function PagesFrom<T>(respond: nat -> PageResponse<T>, page: nat, fuel: nat): Fetched<T>
    decreases fuel
  {
    if fuel == 0 then OutOfFuel
    else
      match respond(page)
      case Page(items) =>
        if items == [] then Fetched([]) else Prepend(items, PagesFrom(respond, page + 1, fuel - 1))
      case _ => FetchFailed
  }

  function ItemsOf<T>(r: PageResponse<T>): seq<T>
  {
    if r.Page? then r.items else []
  }

  /** Every page in [from, to) answered with a non-empty list. */
  ghost predicate NonEmptyPages<T>(respond: nat -> PageResponse<T>, from: nat, to: nat)
  {
    forall p :: from <= p < to ==> respond(p).Page? && respond(p).items != []
  }

  /** The lists of pages from, from + 1, ..., to - 1, concatenated in page order. */
  function Collected<T>(respond: nat -> PageResponse<T>, from: nat, to: nat): seq<T>
    decreases to - from
  {
    if to <= from then [] else ItemsOf(respond(from)) + Collected(respond, from + 1, to)
  }

  /**
   * The fetch yields a list exactly when some page `stop`, reached within the fuel, is
   * empty and every page before it is a non-empty list; the list is then the pages
   * before `stop` concatenated in order.
   */
  lemma {:induction false} PagesFetched<T>(respond: nat -> PageResponse<T>, page: nat, fuel: nat, xs: seq<T>)
    ensures PagesFrom(respond, page, fuel) == Fetched(xs) <==>
      exists stop :: page <= stop < page + fuel && NonEmptyPages(respond, page, stop)
                     && respond(stop) == Page([]) && xs == Collected(respond, page, stop)
    decreases fuel
  {
    if fuel == 0 {
      return;
    }
    var r := respond(page);
    assert forall stop :: page < stop && NonEmptyPages(respond, page, stop) ==> r.Page? && r.items != [];
    if !r.Page? || r.items == [] {
      if r == Page([]) && xs == [] {
        assert NonEmptyPages(respond, page, page) && Collected(respond, page, page) == [];
      }
      return;
    }
    var rest := PagesFrom(respond, page + 1, fuel - 1);
    var n := |r.items|;
    var ys := if n <= |xs| then xs[n..] else [];
    PagesFetched(respond, page + 1, fuel - 1, ys);
    if PagesFrom(respond, page, fuel) == Fetched(xs) {
      assert rest == Fetched(ys);
      var stop :| page + 1 <= stop < page + 1 + (fuel - 1) && NonEmptyPages(respond, page + 1, stop)
                  && respond(stop) == Page([]) && ys == Collected(respond, page + 1, stop);
      assert NonEmptyPages(respond, page, stop);
      assert xs == Collected(respond, page, stop);
    }
    if exists stop :: page <= stop < page + fuel && NonEmptyPages(respond, page, stop)
                      && respond(stop) == Page([]) && xs == Collected(respond, page, stop) {
      var stop :| page <= stop < page + fuel && NonEmptyPages(respond, page, stop)
                  && respond(stop) == Page([]) && xs == Collected(respond, page, stop);
      assert stop != page;
      assert NonEmptyPages(respond, page + 1, stop);
      assert xs == r.items + Collected(respond, page + 1, stop);
      assert ys == Collected(respond, page + 1, stop);
    }
  }

  /**
   * The fetch fails exactly when, within the fuel, it reaches a page that is not a 2xx
   * list after only non-empty pages; failure carries no items, so a partial list is
   * never returned.
   */
  lemma {:induction false} PagesFailed<T>(respond: nat -> PageResponse<T>, page: nat, fuel: nat)
    ensures PagesFrom(respond, page, fuel) == FetchFailed <==>
      exists p :: page <= p < page + fuel && NonEmptyPages(respond, page, p) && !respond(p).Page?
    decreases fuel
  {
    if fuel == 0 {
      return;
    }
    var r := respond(page);
    assert forall p :: page < p && NonEmptyPages(respond, page, p) ==> r.Page? && r.items != [];
    if !r.Page? {
      assert NonEmptyPages(respond, page, page);
      return;
    }
    if r.items == [] {
      return;
    }
    PagesFailed(respond, page + 1, fuel - 1);
    if PagesFrom(respond, page + 1, fuel - 1) == FetchFailed {
      var p :| page + 1 <= p < page + 1 + (fuel - 1) && NonEmptyPages(respond, page + 1, p) && !respond(p).Page?;
      assert NonEmptyPages(respond, page, p);
    }
    if exists p :: page <= p < page + fuel && NonEmptyPages(respond, page, p) && !respond(p).Page? {
      var p :| page <= p < page + fuel && NonEmptyPages(respond, page, p) && !respond(p).Page?;
      assert p != page;
      assert NonEmptyPages(respond, page + 1, p);
    }
  }

  /** `get_all_companies`, with at most `fuel` requests. */
  method GetAllCompanies(respond: nat -> PageResponse<Department>, fuel: nat) returns (r: Fetched<Department>)
    ensures r == PagesFrom(respond, 1, fuel)
  {
    var all: seq<Department> := [];
    var page: nat := 1;
    var left := fuel;
    while left > 0
      invariant PagesFrom(respond, 1, fuel) == Prepend(all, PagesFrom(respond, page, left))
      decreases left
    {
      var response := respond(page);
      if !response.Page? {
        return FetchFailed;
      }
      if response.items == [] {
        return Fetched(all);
      }
      PrependAssoc(all, response.items, PagesFrom(respond, page + 1, left - 1));
      all := all + response.items;
      page := page + 1;
      left := left - 1;
    }
    return OutOfFuel;
  }

  // ===========================================================================
  // get_all_users: the same loop, but a 429 waits and asks for the same page again

  /** What the loop does that an observer could see: a request for a page, or a sleep. */
  datatype Event = Requested(page: nat) | Waited(seconds: nat)

  datatype UsersRun = UsersRun(result: Fetched<Requester>, log: seq<Event>)

  /** The sleep after a 429: the Retry-After header, 5 seconds when it is absent. */
  function RetryDelay(retryAfter: Option<nat>): (s: nat)
    ensures retryAfter.Some? ==> s == retryAfter.value
    ensures retryAfter.None? ==> s == 5
  {
    if retryAfter.Some? then retryAfter.value else 5
  }

  function UsersFrom(respond: (nat, nat) -> PageResponse<Requester>, page: nat, attempt: nat, fuel: nat): (run: UsersRun)
    ensures run.log != [] ==> run.log[0] == Requested(page)
    decreases fuel
  {
    if fuel == 0 then UsersRun(OutOfFuel, [])
    else
      match respond(page, attempt)
      case RateLimited(retryAfter) =>
        var rest := UsersFrom(respond, page, attempt + 1, fuel - 1);
        UsersRun(rest.result, [Requested(page), Waited(RetryDelay(retryAfter))] + rest.log)
      case Failed => UsersRun(FetchFailed, [Requested(page)])
      case Page(items) =>
        if items == [] then UsersRun(Fetched([]), [Requested(page)])
        else
          var rest := UsersFrom(respond, page + 1, 0, fuel - 1);
          UsersRun(Prepend(items, rest.result), [Requested(page)] + rest.log)
  }

  /** The requests the loop makes, as (page, attempt) pairs, in order. */
  function UsersRequests(respond: (nat, nat) -> PageResponse<Requester>, page: nat, attempt: nat, fuel: nat): seq<(nat, nat)>
    decreases fuel
  {
    if fuel == 0 then []
    else
      match respond(page, attempt)
      case RateLimited(_) => [(page, attempt)] + UsersRequests(respond, page, attempt + 1, fuel - 1)
      case Failed => [(page, attempt)]
      case Page(items) =>
        if items == [] then [(page, attempt)] else [(page, attempt)] + UsersRequests(respond, page + 1, 0, fuel - 1)
  }

  /**
   * The loop goes on from request `req` to request `next`: after a 429 it asks for the same
   * page again, after a non-empty page for the next page; a failure or an empty page ends it.
   */
  predicate Continues(respond: (nat, nat) -> PageResponse<Requester>, req: (nat, nat), next: (nat, nat))
  {
    match respond(req.0, req.1)
    case RateLimited(_) => next == (req.0, req.1 + 1)
    case Failed => false
    case Page(items) => items != [] && next == (req.0 + 1, 0)
  }

  /** The sleep after request `req`: RetryDelay of its Retry-After when it got a 429, none otherwise. */
  function WaitAfter(respond: (nat, nat) -> PageResponse<Requester>, req: (nat, nat)): seq<Event>
  {
    match respond(req.0, req.1)
    case RateLimited(retryAfter) => [Waited(RetryDelay(retryAfter))]
    case _ => []
  }

  /** The log of a run of requests: each request's page, followed by its sleep. */
  function EventsOf(respond: (nat, nat) -> PageResponse<Requester>, reqs: seq<(nat, nat)>): seq<Event>
    decreases |reqs|
  {
    if reqs == [] then [] else [Requested(reqs[0].0)] + WaitAfter(respond, reqs[0]) + EventsOf(respond, reqs[1..])
  }

  lemma EventsOfCons(respond: (nat, nat) -> PageResponse<Requester>, req: (nat, nat), rest: seq<(nat, nat)>)
    ensures EventsOf(respond, [req] + rest) == [Requested(req.0)] + WaitAfter(respond, req) + EventsOf(respond, rest)
  {
    assert ([req] + rest)[1..] == rest;
  }

  /**
   * The order of requests and sleeps: the first request is for `page`; every sleep follows
   * a request and is followed by a request for that same page; two requests in a row are
   * for consecutive pages.
   */
  ghost predicate RetriesSamePage(log: seq<Event>, page: nat)
  {
    && (log != [] ==> log[0] == Requested(page))
    && (forall i :: 0 <= i < |log| && log[i].Waited? ==> 0 < i && log[i - 1].Requested?)
    && (forall i :: 0 < i < |log| - 1 && log[i].Waited? ==> log[i + 1] == log[i - 1])
    && (forall i :: 0 <= i < |log| - 1 && log[i].Requested? && log[i + 1].Requested? ==>
          log[i + 1].page == log[i].page + 1)
  }

  /** A request for `page` and a sleep, followed by a log that starts again at `page`. */
  lemma RetriesAfterWait(page: nat, seconds: nat, rest: seq<Event>)
    requires RetriesSamePage(rest, page)
    ensures RetriesSamePage([Requested(page), Waited(seconds)] + rest, page)
  {
    var log := [Requested(page), Waited(seconds)] + rest;
    assert forall i :: 2 <= i < |log| ==> log[i] == rest[i - 2];
  }

  /** A request for `page`, followed by a log that starts at the next page. */
  lemma RetriesAfterPage(page: nat, rest: seq<Event>)
    requires RetriesSamePage(rest, page + 1)
    ensures RetriesSamePage([Requested(page)] + rest, page)
  {
    var log := [Requested(page)] + rest;
    assert forall i :: 1 <= i < |log| ==> log[i] == rest[i - 1];
  }

  /** The log is the run's requests in order, each followed by its sleep. */
  lemma {:induction false} UsersEvents(respond: (nat, nat) -> PageResponse<Requester>, page: nat, attempt: nat, fuel: nat)
    ensures UsersFrom(respond, page, attempt, fuel).log == EventsOf(respond, UsersRequests(respond, page, attempt, fuel))
    decreases fuel
  {
    if fuel == 0 {
      return;
    }
    var req := (page, attempt);
    match respond(page, attempt)
    case RateLimited(retryAfter) =>
      var rest := UsersFrom(respond, page, attempt + 1, fuel - 1).log;
      UsersEvents(respond, page, attempt + 1, fuel - 1);
      EventsOfCons(respond, req, UsersRequests(respond, page, attempt + 1, fuel - 1));
      assert [Requested(page), Waited(RetryDelay(retryAfter))] + rest
          == [Requested(page)] + [Waited(RetryDelay(retryAfter))] + rest;
    case Failed =>
      EventsOfCons(respond, req, []);
    case Page(items) =>
      if items != [] {
        UsersEvents(respond, page + 1, 0, fuel - 1);
        EventsOfCons(respond, req, UsersRequests(respond, page + 1, 0, fuel - 1));
      } else {
        EventsOfCons(respond, req, []);
      }
  }

  /**
   * The log is the run's requests in order, each followed by its sleep: a 429 on a request
   * is followed by a sleep of its Retry-After seconds (5 without the header) and then by a
   * request for the same page.
   */
  lemma {:induction false} UsersLog(respond: (nat, nat) -> PageResponse<Requester>, page: nat, attempt: nat, fuel: nat)
    ensures RetriesSamePage(UsersFrom(respond, page, attempt, fuel).log, page)
    ensures UsersFrom(respond, page, attempt, fuel).log == EventsOf(respond, UsersRequests(respond, page, attempt, fuel))
    decreases fuel
  {
    UsersEvents(respond, page, attempt, fuel);
    if fuel == 0 {
      return;
    }
    match respond(page, attempt)
    case RateLimited(retryAfter) =>
      UsersLog(respond, page, attempt + 1, fuel - 1);
      RetriesAfterWait(page, RetryDelay(retryAfter), UsersFrom(respond, page, attempt + 1, fuel - 1).log);
    case Failed =>
    case Page(items) =>
      if items != [] {
        UsersLog(respond, page + 1, 0, fuel - 1);
        RetriesAfterPage(page, UsersFrom(respond, page + 1, 0, fuel - 1).log);
      }
  }

  /**
   * The loop makes at most `fuel` requests, starting with `(page, attempt)`, and goes from
   * each request to the next only as `Continues` allows.
   */
  lemma {:induction false} UsersChain(respond: (nat, nat) -> PageResponse<Requester>, page: nat, attempt: nat, fuel: nat)
    ensures var reqs := UsersRequests(respond, page, attempt, fuel);
      && |reqs| <= fuel
      && (reqs != [] ==> reqs[0] == (page, attempt))
      && (forall i :: 0 <= i < |reqs| - 1 ==> Continues(respond, reqs[i], reqs[i + 1]))
    decreases fuel
  {
    if fuel == 0 {
      return;
    }
    var reqs := UsersRequests(respond, page, attempt, fuel);
    match respond(page, attempt)
    case RateLimited(_) =>
      var rest := UsersRequests(respond, page, attempt + 1, fuel - 1);
      UsersChain(respond, page, attempt + 1, fuel - 1);
      assert forall i :: 1 <= i < |reqs| ==> reqs[i] == rest[i - 1];
    case Failed =>
    case Page(items) =>
      if items != [] {
        var rest := UsersRequests(respond, page + 1, 0, fuel - 1);
        UsersChain(respond, page + 1, 0, fuel - 1);
        assert forall i :: 1 <= i < |reqs| ==> reqs[i] == rest[i - 1];
      }
  }

  /**
   * When the server never answers 429, fetching users is the companies loop on the first
   * answer for each page: the retry changes nothing else.
   */
  lemma {:induction false} UsersWithoutRateLimit(respond: (nat, nat) -> PageResponse<Requester>,
                                                 pages: nat -> PageResponse<Requester>, page: nat, fuel: nat)
    requires forall p :: pages(p) == respond(p, 0) && !pages(p).RateLimited?
    ensures UsersFrom(respond, page, 0, fuel).result == PagesFrom(pages, page, fuel)
    decreases fuel
  {
    if fuel > 0 && pages(page).Page? && pages(page).items != [] {
      UsersWithoutRateLimit(respond, pages, page + 1, fuel - 1);
    }
  }

  /**
   * The users fetch returns None exactly when the last request the loop makes fails
   * outright (a 429 is retried, never a failure), and the log then ends with the request
   * for that request's page.
   */
  lemma {:induction false} UsersFailedOnError(respond: (nat, nat) -> PageResponse<Requester>, page: nat, attempt: nat, fuel: nat)
    ensures var reqs := UsersRequests(respond, page, attempt, fuel);
      && (UsersFrom(respond, page, attempt, fuel).result == FetchFailed <==>
            reqs != [] && respond(reqs[|reqs| - 1].0, reqs[|reqs| - 1].1).Failed?)
      && (UsersFrom(respond, page, attempt, fuel).result == FetchFailed ==>
            var log := UsersFrom(respond, page, attempt, fuel).log;
            log != [] && log[|log| - 1] == Requested(reqs[|reqs| - 1].0))
    decreases fuel
  {
    if fuel == 0 {
      return;
    }
    var reqs := UsersRequests(respond, page, attempt, fuel);
    match respond(page, attempt)
    case RateLimited(_) =>
      var rest := UsersRequests(respond, page, attempt + 1, fuel - 1);
      UsersFailedOnError(respond, page, attempt + 1, fuel - 1);
      if rest != [] {
        assert reqs[|reqs| - 1] == rest[|rest| - 1];
      }
    case Failed =>
    case Page(items) =>
      if items != [] {
        var rest := UsersRequests(respond, page + 1, 0, fuel - 1);
        UsersFailedOnError(respond, page + 1, 0, fuel - 1);
        if rest != [] {
          assert reqs[|reqs| - 1] == rest[|rest| - 1];
        }
      }
  }

  /** The users the answers to `reqs` carry, in order: a 429 or a failure carries none. */
  function PageItemsOf(respond: (nat, nat) -> PageResponse<Requester>, reqs: seq<(nat, nat)>): seq<Requester>
  {
    if reqs == [] then []
    else
      var answer := respond(reqs[0].0, reqs[0].1);
      (if answer.Page? then answer.items else []) + PageItemsOf(respond, reqs[1..])
  }

  /**
   * A successful users fetch returns the users of every page answer it received, in order:
   * a 429 adds nothing, and no page's users are lost or repeated by the retry.
   */
  lemma {:induction false} UsersItems(respond: (nat, nat) -> PageResponse<Requester>, page: nat, attempt: nat, fuel: nat)
    ensures UsersFrom(respond, page, attempt, fuel).result.Fetched? ==>
      UsersFrom(respond, page, attempt, fuel).result.items == PageItemsOf(respond, UsersRequests(respond, page, attempt, fuel))
    decreases fuel
  {
    if fuel == 0 {
      return;
    }
    var reqs := UsersRequests(respond, page, attempt, fuel);
    match respond(page, attempt)
    case RateLimited(_) =>
      UsersItems(respond, page, attempt + 1, fuel - 1);
      assert reqs[1..] == UsersRequests(respond, page, attempt + 1, fuel - 1);
    case Failed =>
    case Page(items) =>
      if items == [] {
        assert reqs[1..] == [];
      } else {
        UsersItems(respond, page + 1, 0, fuel - 1);
        assert reqs[1..] == UsersRequests(respond, page + 1, 0, fuel - 1);
      }
  }

  /**
   * A 429 with Retry-After 2 on page 1, then a page of users, then an empty page: the loop
   * sleeps 2 seconds and asks for page 1 again, not page 2.
   */
  lemma RetryAfterExample(respond: (nat, nat) -> PageResponse<Requester>, u: Requester)
    requires respond(1, 0) == RateLimited(Some(2)) && respond(1, 1) == Page([u]) && respond(2, 0) == Page([])
    ensures UsersFrom(respond, 1, 0, 10) ==
      UsersRun(Fetched([u]), [Requested(1), Waited(2), Requested(1), Requested(2)])
  {
    assert UsersFrom(respond, 2, 0, 8) == UsersRun(Fetched([]), [Requested(2)]);
    assert [u] + [] == [u];
    assert UsersFrom(respond, 1, 1, 9) == UsersRun(Fetched([u]), [Requested(1), Requested(2)]);
  }

  /** A 429 moves the loop to the next attempt at the same page, logging the request and the sleep. */
  lemma WaitStep(total: UsersRun, all: seq<Requester>, log: seq<Event>, respond: (nat, nat) -> PageResponse<Requester>,
                 page: nat, attempt: nat, left: nat, retryAfter: Option<nat>)
    requires left > 0 && respond(page, attempt) == RateLimited(retryAfter)
    requires total.result == Prepend(all, UsersFrom(respond, page, attempt, left).result)
    requires total.log == log + UsersFrom(respond, page, attempt, left).log
    ensures total.result == Prepend(all, UsersFrom(respond, page, attempt + 1, left - 1).result)
    ensures total.log == (log + [Requested(page), Waited(RetryDelay(retryAfter))]) + UsersFrom(respond, page, attempt + 1, left - 1).log
  {
    var rest := UsersFrom(respond, page, attempt + 1, left - 1);
    assert log + ([Requested(page), Waited(RetryDelay(retryAfter))] + rest.log)
        == (log + [Requested(page), Waited(RetryDelay(retryAfter))]) + rest.log;
  }

  /** A non-empty page moves the loop to the first attempt at the next page, keeping its users. */
  lemma PageStep(total: UsersRun, all: seq<Requester>, log: seq<Event>, respond: (nat, nat) -> PageResponse<Requester>,
                 page: nat, attempt: nat, left: nat, items: seq<Requester>)
    requires left > 0 && respond(page, attempt) == Page(items) && items != []
    requires total.result == Prepend(all, UsersFrom(respond, page, attempt, left).result)
    requires total.log == log + UsersFrom(respond, page, attempt, left).log
    ensures total.result == Prepend(all + items, UsersFrom(respond, page + 1, 0, left - 1).result)
    ensures total.log == (log + [Requested(page)]) + UsersFrom(respond, page + 1, 0, left - 1).log
  {
    var rest := UsersFrom(respond, page + 1, 0, left - 1);
    assert log + ([Requested(page)] + rest.log) == (log + [Requested(page)]) + rest.log;
    PrependAssoc(all, items, rest.result);
  }

  /** `get_all_users`, with at most `fuel` requests; `log` records the requests and sleeps. */
  method GetAllUsers(respond: (nat, nat) -> PageResponse<Requester>, fuel: nat) returns (r: Fetched<Requester>, log: seq<Event>)
    ensures UsersRun(r, log) == UsersFrom(respond, 1, 0, fuel)
  {
    var all: seq<Requester> := [];
    log := [];
    var page: nat := 1;
    var attempt: nat := 0;
    var left := fuel;
    ghost var total := UsersFrom(respond, 1, 0, fuel);
    while left > 0
      invariant total.result == Prepend(all, UsersFrom(respond, page, attempt, left).result)
      invariant total.log == log + UsersFrom(respond, page, attempt, left).log
      decreases left
    {
      var response := respond(page, attempt);
      match response {
      case RateLimited(retryAfter) =>
        WaitStep(total, all, log, respond, page, attempt, left, retryAfter);
        log := log + [Requested(page), Waited(RetryDelay(retryAfter))];
        attempt := attempt + 1;
      case Failed =>
        return FetchFailed, log + [Requested(page)];
      case Page(items) =>
        if items == [] {
          return Fetched(all), log + [Requested(page)];
        }
        PageStep(total, all, log, respond, page, attempt, left, items);
        log := log + [Requested(page)];
        all := all + items;
        page := page + 1;
        attempt := 0;
      }
      left := left - 1;
    }
    assert log + [] == log;
    return OutOfFuel, log;
  }

  // ===========================================================================
  // populate_companies_database

  /** The tuple a department contributes, or None when its account number is falsy. */
  function CompanyRecordOf(d: Department): (r: Option<CompanyRecord>)
    ensures r.Some? <==> Truthy(d.customFields.accountNumber)
    ensures r.Some? ==>
      && r.value.accountNumber == PyStr(d.customFields.accountNumber) && r.value.accountNumber != ""
      && r.value.name == d.name && r.value.freshserviceId == d.id
      && r.value.contractType == GetOr(d.customFields.typeOfClient, "Unknown")
      && r.value.billingPlan == GetOr(d.customFields.planSelected, "Unknown")
  {
    var cf := d.customFields;
    if !Truthy(cf.accountNumber) then None
    else
      Some(CompanyRecord(PyStr(cf.accountNumber), d.name, d.id,
                         GetOr(cf.typeOfClient, "Unknown"), GetOr(cf.planSelected, "Unknown")))
  }

  /** The batch `populate_companies_database` hands to `executemany`. */
  function CompanyBatch(ds: seq<Department>): seq<CompanyRecord>
  {
    FilterMap(CompanyRecordOf, ds)
  }

  /**
   * A department is in the batch exactly when its account number is truthy; every record
   * carries `str(account_number)`, never empty, and 'Unknown' for a missing contract type
   * or plan.
   */
  lemma CompanyBatchMembers(ds: seq<Department>)
    ensures forall i :: 0 <= i < |ds| && Truthy(ds[i].customFields.accountNumber) ==>
      CompanyRecordOf(ds[i]).value in CompanyBatch(ds)
    ensures forall r :: r in CompanyBatch(ds) ==>
      && r.accountNumber != ""
      && exists i :: 0 <= i < |ds| && Truthy(ds[i].customFields.accountNumber) && CompanyRecordOf(ds[i]) == Some(r)
  {
  }

  /** `populate_companies_database`: build the batch, then upsert it unless it is empty. */
  method PopulateCompanies(db: Database, ds: seq<Department>) returns (ok: bool)
    requires db.Valid()
    modifies db
    ensures db.Valid()
    ensures ok <==> UpsertCompanies(old(db.companies), CompanyBatch(ds)).Ok?
    ensures ok ==> db.companies == UpsertCompanies(old(db.companies), CompanyBatch(ds)).value
    ensures db.users == old(db.users) && db.assets == old(db.assets) && db.plans == old(db.plans)
  {
    var batch: seq<CompanyRecord> := [];
    var i := 0;
    while i < |ds|
      invariant 0 <= i <= |ds|
      invariant batch == CompanyBatch(ds[..i])
    {
      assert ds[..i + 1][..i] == ds[..i];
      var d := ds[i];
      var cf := d.customFields;
      if Truthy(cf.accountNumber) {
        batch := batch + [CompanyRecord(PyStr(cf.accountNumber), d.name, d.id,
                                        GetOr(cf.typeOfClient, "Unknown"), GetOr(cf.planSelected, "Unknown"))];
      }
      i := i + 1;
    }
    assert ds[..i] == ds;
    if batch == [] {
      return true;
    }
    ok := db.UpsertCompanyBatch(batch);
  }

  // ===========================================================================
  // The id map and the user linkage of the main block

  /**
   * Each department id mapped to its raw account number (null when missing); a later
   * department with the same id wins.
   */
  function IdMap(ds: seq<Department>): (m: map<Option<int>, Scalar>)
    ensures forall k :: k in m ==> exists i :: 0 <= i < |ds| && ds[i].id == k && m[k] == ds[i].customFields.accountNumber
    ensures forall i :: 0 <= i < |ds| ==> ds[i].id in m
    decreases |ds|
  {
    if ds == [] then map[]
    else
      var d := ds[|ds| - 1];
      IdMap(ds[..|ds| - 1])[d.id := d.customFields.accountNumber]
  }

  /** When two departments share an id, the later one's account number is the one kept. */
  lemma {:induction false} IdMapLastWins(ds: seq<Department>, i: nat)
    requires i < |ds| && forall j :: i < j < |ds| ==> ds[j].id != ds[i].id
    ensures IdMap(ds)[ds[i].id] == ds[i].customFields.accountNumber
    decreases |ds|
  {
    if i < |ds| - 1 {
      IdMapLastWins(ds[..|ds| - 1], i);
    }
  }

  /** The account number recorded for a department id, null when the id is not in the map. */
  function Lookup(m: map<Option<int>, Scalar>, k: Option<int>): Scalar
  {
    if k in m then m[k] else SNull
  }

  /** The position of the first department id that maps to a truthy account number. */
  function FirstLinkIndex(m: map<Option<int>, Scalar>, ids: seq<Option<int>>): (r: Option<nat>)
    ensures r.Some? ==> r.value < |ids| && Truthy(Lookup(m, ids[r.value]))
                        && forall j :: 0 <= j < r.value ==> !Truthy(Lookup(m, ids[j]))
    ensures r.None? ==> forall j :: 0 <= j < |ids| ==> !Truthy(Lookup(m, ids[j]))
    decreases |ids|
  {
    if ids == [] then None
    else if Truthy(Lookup(m, ids[0])) then Some(0)
    else
      match FirstLinkIndex(m, ids[1..])
      case None => None
      case Some(j) => Some(j + 1)
  }

  /** The name a Field renders to inside an f-string: "" when absent, "None" when null. */
  function NamePart(f: Field<string>): string
  {
    match f
    case Missing => ""
    case Null => "None"
    case Present(s) => s
  }

  /** The tuple for a user linked to the company whose raw account number is `account`. */
  function UserRecordOf(u: Requester, account: Scalar, now: string): (r: UserRecord)
    ensures r.accountNumber == PyStr(account) && r.freshserviceId == u.id && r.email == u.primaryEmail
    ensures r.fullName == Strip(NamePart(u.firstName) + " " + NamePart(u.lastName))
    ensures r.status == (if Truthy(u.active) then "Active" else "Inactive")
    ensures r.dateAdded == GetOr(u.createdAt, now)
  {
    UserRecord(PyStr(account), u.id, Strip(NamePart(u.firstName) + " " + NamePart(u.lastName)),
               u.primaryEmail, if Truthy(u.active) then "Active" else "Inactive", GetOr(u.createdAt, now))
  }

  /** The record a user contributes: linked through its first resolvable department, if any. */
  function LinkOf(m: map<Option<int>, Scalar>, now: string, u: Requester): Option<UserRecord>
  {
    match FirstLinkIndex(m, u.departmentIds)
    case None => None
    case Some(j) => Some(UserRecordOf(u, Lookup(m, u.departmentIds[j]), now))
  }

  function LinkedUsers(m: map<Option<int>, Scalar>, us: seq<Requester>, now: string): seq<UserRecord>
  {
    FilterMap((u: Requester) => LinkOf(m, now, u), us)
  }

  /**
   * The batch is no longer than the user list; a user none of whose departments resolves
   * yields no record, every other user's record is in it, and every record carries the
   * account number of the first resolvable department in its user's own list order.
   */
  lemma LinkedUsersShape(m: map<Option<int>, Scalar>, us: seq<Requester>, now: string)
    ensures |LinkedUsers(m, us, now)| <= |us|
    ensures forall r :: r in LinkedUsers(m, us, now) ==>
      exists i :: 0 <= i < |us| && FirstLinkIndex(m, us[i].departmentIds).Some?
        && r == UserRecordOf(us[i], Lookup(m, us[i].departmentIds[FirstLinkIndex(m, us[i].departmentIds).value]), now)
    ensures forall i :: 0 <= i < |us| && FirstLinkIndex(m, us[i].departmentIds).Some? ==>
      LinkOf(m, now, us[i]).value in LinkedUsers(m, us, now)
  {
    var f := (u: Requester) => LinkOf(m, now, u);
    forall r | r in LinkedUsers(m, us, now)
      ensures exists i :: 0 <= i < |us| && FirstLinkIndex(m, us[i].departmentIds).Some?
                          && r == UserRecordOf(us[i], Lookup(m, us[i].departmentIds[FirstLinkIndex(m, us[i].departmentIds).value]), now)
    {
      var i :| 0 <= i < |us| && f(us[i]) == Some(r);
    }
  }

  /** One user alone yields its link, or nothing when none of its departments resolves. */
  lemma LinkedUsersOne(m: map<Option<int>, Scalar>, u: Requester, now: string)
    ensures LinkedUsers(m, [u], now) == if LinkOf(m, now, u).Some? then [LinkOf(m, now, u).value] else []
  {
    FilterMapOne((u: Requester) => LinkOf(m, now, u), u);
  }

  /** The batch for two runs of users is the batch for the first followed by the batch for the second. */
  lemma LinkedUsersSplit(m: map<Option<int>, Scalar>, us1: seq<Requester>, us2: seq<Requester>, now: string)
    ensures LinkedUsers(m, us1 + us2, now) == LinkedUsers(m, us1, now) + LinkedUsers(m, us2, now)
  {
    FilterMapAppend((u: Requester) => LinkOf(m, now, u), us1, us2);
  }

  /**
   * A user whose departments are [7, 3] where only 3 resolves is linked to 3's company; when
   * both resolve, to 7's.
   */
  lemma FirstDepartmentExample(u: Requester, a: string, b: string)
    requires u.departmentIds == [Some(7), Some(3)] && a != "" && b != ""
    ensures LinkOf(map[Some(3) := SStr(b)], "now", u) == Some(UserRecordOf(u, SStr(b), "now"))
    ensures LinkOf(map[Some(7) := SStr(a), Some(3) := SStr(b)], "now", u) == Some(UserRecordOf(u, SStr(a), "now"))
  {
    assert Lookup(map[Some(3) := SStr(b)], Some(7)) == SNull;
    LinkAt(map[Some(3) := SStr(b)], "now", u, 1);
    LinkAt(map[Some(7) := SStr(a), Some(3) := SStr(b)], "now", u, 0);
  }

  lemma LinkedUsersAppend(m: map<Option<int>, Scalar>, us: seq<Requester>, now: string, i: nat)
    requires i < |us|
    ensures LinkedUsers(m, us[..i + 1], now) ==
      LinkedUsers(m, us[..i], now) + (match LinkOf(m, now, us[i]) case Some(r) => [r] case None => [])
  {
    assert us[..i + 1][..i] == us[..i];
  }

  /** The inner loop stops at the first department whose account number is truthy. */
  lemma LinkAt(m: map<Option<int>, Scalar>, now: string, u: Requester, j: nat)
    requires j < |u.departmentIds| && Truthy(Lookup(m, u.departmentIds[j]))
    requires forall k :: 0 <= k < j ==> !Truthy(Lookup(m, u.departmentIds[k]))
    ensures LinkOf(m, now, u) == Some(UserRecordOf(u, Lookup(m, u.departmentIds[j]), now))
  {
    assert FirstLinkIndex(m, u.departmentIds) == Some(j);
  }

  /** A user none of whose departments has a truthy account number is not linked. */
  lemma NoLink(m: map<Option<int>, Scalar>, now: string, u: Requester)
    requires forall k :: 0 <= k < |u.departmentIds| ==> !Truthy(Lookup(m, u.departmentIds[k]))
    ensures LinkOf(m, now, u).None?
  {
  }

  /** The nested loop of the main block, with its early `break`. */
  method LinkUsers(m: map<Option<int>, Scalar>, us: seq<Requester>, now: string) returns (records: seq<UserRecord>)
    ensures records == LinkedUsers(m, us, now)
  {
    records := [];
    var i := 0;
    while i < |us|
      invariant 0 <= i <= |us|
      invariant records == LinkedUsers(m, us[..i], now)
    {
      var ids := us[i].departmentIds;
      var j := 0;
      while j < |ids|
        invariant 0 <= j <= |ids|
        invariant forall k :: 0 <= k < j ==> !Truthy(Lookup(m, ids[k]))
        invariant records == LinkedUsers(m, us[..i], now)
      {
        var account := Lookup(m, ids[j]);
        if Truthy(account) {
          LinkAt(m, now, us[i], j);
          LinkedUsersAppend(m, us, now, i);
          records := records + [UserRecordOf(us[i], account, now)];
          break;
        }
        j := j + 1;
      }
      if j == |ids| {
        NoLink(m, now, us[i]);
        LinkedUsersAppend(m, us, now, i);
      }
      i := i + 1;
    }
    assert us[..i] == us;
  }

  /** The account number a user is linked to is that of a company record of the batch. */
  lemma LinkHasCompany(ds: seq<Department>, u: Requester, now: string)
    requires LinkOf(IdMap(ds), now, u).Some?
    ensures exists c :: c in CompanyBatch(ds) && c.accountNumber == LinkOf(IdMap(ds), now, u).value.accountNumber
  {
    var m := IdMap(ds);
    var k := u.departmentIds[FirstLinkIndex(m, u.departmentIds).value];
    assert k in m;
    var d :| 0 <= d < |ds| && ds[d].id == k && m[k] == ds[d].customFields.accountNumber;
    assert CompanyRecordOf(ds[d]).Some?;
    assert CompanyRecordOf(ds[d]).value in CompanyBatch(ds);
  }

  /**
   * Referential integrity of the links: every linked record's account number is the
   * account number of a company record of the same run's batch.
   */
  lemma LinkedUsersHaveCompanies(ds: seq<Department>, us: seq<Requester>, now: string)
    ensures forall r :: r in LinkedUsers(IdMap(ds), us, now) ==>
      exists c :: c in CompanyBatch(ds) && c.accountNumber == r.accountNumber
  {
    var m := IdMap(ds);
    var f := (u: Requester) => LinkOf(m, now, u);
    forall r | r in LinkedUsers(m, us, now)
      ensures exists c :: c in CompanyBatch(ds) && c.accountNumber == r.accountNumber
    {
      var i :| 0 <= i < |us| && f(us[i]) == Some(r);
      LinkHasCompany(ds, us[i], now);
    }
  }

  // ===========================================================================
  // The main block: fetch, abort, upsert both tables, commit or roll back

  datatype Outcome =
    | Unfinished   // a fetch loop is still running when the fuel runs out
    | Aborted      // no company list, an empty one, or no user list: exit before connecting
    | RolledBack   // a constraint failed in one of the two upserts
    | Committed

  /** The outcome of a run and the store it leaves, given what the two fetches returned. */
  function SyncEffect(t: Tables, companies: Fetched<Department>, users: Fetched<Requester>, now: string): (r: (Outcome, Tables))
    requires TablesValid(t)
    ensures TablesValid(r.1)
    ensures r.0 != Committed ==> r.1 == t
    ensures r.0 == Committed <==>
      && companies.Fetched? && companies.items != [] && users.Fetched?
      && UpsertCompanies(t.companies, CompanyBatch(companies.items)).Ok?
      && UpsertUsers(t.users, LinkedUsers(IdMap(companies.items), users.items, now)).Ok?
    ensures r.0 == Committed ==>
      r.1 == t.(companies := UpsertCompanies(t.companies, CompanyBatch(companies.items)).value,
                users := UpsertUsers(t.users, LinkedUsers(IdMap(companies.items), users.items, now)).value)
  {
    if companies.OutOfFuel? || users.OutOfFuel? then (Unfinished, t)
    else if !companies.Fetched? || companies.items == [] || !users.Fetched? then (Aborted, t)
    else
      match UpsertCompanies(t.companies, CompanyBatch(companies.items))
      case Err(_) => (RolledBack, t)
      case Ok(cs) =>
        match UpsertUsers(t.users, LinkedUsers(IdMap(companies.items), users.items, now))
        case Err(_) => (RolledBack, t)
        case Ok(us) => (Committed, t.(companies := cs, users := us))
  }

  /**
   * After a committed run every user record of the run is attached to a company row that
   * exists: the account number each user was linked to is a key of the companies table.
   */
  lemma SyncLinksUsersToCompanies(t: Tables, companies: Fetched<Department>, users: Fetched<Requester>, now: string)
    requires TablesValid(t) && SyncEffect(t, companies, users, now).0 == Committed
    ensures forall r :: r in LinkedUsers(IdMap(companies.items), users.items, now) ==>
      r.accountNumber in SyncEffect(t, companies, users, now).1.companies
  {
    var batch := CompanyBatch(companies.items);
    var t' := SyncEffect(t, companies, users, now).1;
    assert t'.companies == UpsertCompanies(t.companies, batch).value;
    LinkedUsersHaveCompanies(companies.items, users.items, now);
    UpsertCompaniesKeys(t.companies, batch);
  }

  /** The main block of the Freshservice sync against the store `db`. */
  method SyncFreshservice(db: Database, departments: nat -> PageResponse<Department>,
                          requesters: (nat, nat) -> PageResponse<Requester>, fuel: nat, now: string)
    returns (outcome: Outcome, log: seq<Event>)
    requires db.Valid()
    modifies db
    ensures db.Valid()
    ensures (outcome, db.Contents()) ==
      SyncEffect(old(db.Contents()), PagesFrom(departments, 1, fuel), UsersFrom(requesters, 1, 0, fuel).result, now)
    ensures PagesFrom(departments, 1, fuel).OutOfFuel? || log == UsersFrom(requesters, 1, 0, fuel).log
  {
    log := [];
    var companies := GetAllCompanies(departments, fuel);
    if companies.OutOfFuel? {
      return Unfinished, log;
    }
    var users;
    users, log := GetAllUsers(requesters, fuel);
    if users.OutOfFuel? {
      return Unfinished, log;
    }
    if !companies.Fetched? || companies.items == [] || !users.Fetched? {
      return Aborted, log;
    }
    var saved := db.Contents();
    var ok := PopulateCompanies(db, companies.items);
    if ok {
      var records := LinkUsers(IdMap(companies.items), users.items, now);
      if records != [] {
        ok := db.UpsertUserBatch(records);
      }
    }
    if !ok {
      db.Restore(saved);
      return RolledBack, log;
    }
    return Committed, log;
  }
}
