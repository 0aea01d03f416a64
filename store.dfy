/**
 * The canonical store written by the two sync scripts and read by the dashboard.
 *
 * Each table is a value: companies and billing plans are maps keyed by their primary
 * keys; users and assets are sequences whose positions play the role of the INTEGER
 * PRIMARY KEY, because their natural keys (freshservice_id, datto_uid) are nullable and
 * a NULL key never conflicts. The UNIQUE and NOT NULL columns of the schema become
 * validity predicates, and each `INSERT ... ON CONFLICT` / `INSERT OR REPLACE` statement
 * becomes a function that either yields the new table or fails with the constraint it hit.
 * SQLite checks NOT NULL on the incoming row first, then looks for a conflict on the
 * target key, then checks the remaining UNIQUE columns against the other rows.
 */
module Store {
  import opened Common

  datatype DbError = NotNullViolation(column: string) | UniqueViolation(column: string)

  // ===========================================================================
  // companies: account_number PRIMARY KEY, name UNIQUE, freshservice_id UNIQUE

  datatype Company = Company(
    name: string,
    freshserviceId: Option<int>,
    contractType: string,
    billingPlan: string,
    status: string)

  type CompanyTable = map<string, Company>

  /** One tuple of the company batch: (account_number, name, id, contract_type, billing_plan). */
  datatype CompanyRecord = CompanyRecord(
    accountNumber: string,
    name: Option<string>,
    freshserviceId: Option<int>,
    contractType: Option<string>,
    billingPlan: Option<string>)

  /** No two companies share a name (`name UNIQUE`). */
  ghost predicate NamesUnique(t: CompanyTable)
  {
    forall a, b :: a in t && b in t && a != b ==> t[a].name != t[b].name
  }

  ghost predicate CompaniesValid(t: CompanyTable)
  {
    && NamesUnique(t)
    && (forall a, b :: a in t && b in t && a != b && t[a].freshserviceId.Some? ==>
          t[a].freshserviceId != t[b].freshserviceId)
  }

  predicate FilledCompany(r: CompanyRecord)
  {
    r.name.Some? && r.contractType.Some? && r.billingPlan.Some?
  }

  /** The status a company row has before a batch touches it; a new row gets the column default. */
  function StatusBefore(t: CompanyTable, k: string): string
  {
    if k in t then t[k].status else "Active"
  }

  /** The row the upsert leaves under the record's account number. */
  function MergedCompany(t: CompanyTable, r: CompanyRecord): Company
    requires FilledCompany(r)
  {
    Company(r.name.value, r.freshserviceId, r.contractType.value, r.billingPlan.value,
            StatusBefore(t, r.accountNumber))
  }

  /** A stored row holds the columns the upsert copies from the record. */
  predicate CarriesCompany(c: Company, r: CompanyRecord)
  {
    FilledCompany(r) && c.name == r.name.value && c.freshserviceId == r.freshserviceId
    && c.contractType == r.contractType.value && c.billingPlan == r.billingPlan.value
  }

  /**
   * `INSERT INTO companies ... ON CONFLICT(account_number) DO UPDATE SET name, freshservice_id,
   * contract_type, billing_plan` for one record.
   */
  function UpsertCompany(t: CompanyTable, r: CompanyRecord): (res: Result<CompanyTable, DbError>)
    requires CompaniesValid(t)
    ensures res.Ok? <==> FilledCompany(r) && CompaniesValid(t[r.accountNumber := MergedCompany(t, r)])
    ensures res.Ok? ==> res.value == t[r.accountNumber := MergedCompany(t, r)]
  {
    if r.name.None? then Err(NotNullViolation("name"))
    else if r.contractType.None? then Err(NotNullViolation("contract_type"))
    else if r.billingPlan.None? then Err(NotNullViolation("billing_plan"))
    else if exists k :: k in t && k != r.accountNumber && t[k].name == r.name.value then
      var k :| k in t && k != r.accountNumber && t[k].name == r.name.value;
      var t' := t[r.accountNumber := MergedCompany(t, r)];
      assert t'[k].name == t'[r.accountNumber].name;
      Err(UniqueViolation("name"))
    else if r.freshserviceId.Some?
      && exists k :: k in t && k != r.accountNumber && t[k].freshserviceId == r.freshserviceId then
      var k :| k in t && k != r.accountNumber && t[k].freshserviceId == r.freshserviceId;
      var t' := t[r.accountNumber := MergedCompany(t, r)];
      assert t'[k].freshserviceId == t'[r.accountNumber].freshserviceId;
      Err(UniqueViolation("freshservice_id"))
    else
      Ok(t[r.accountNumber := MergedCompany(t, r)])
  }

  /** `executemany` of the company upsert: records applied in order, the first failure aborts. */
  function UpsertCompanies(t: CompanyTable, batch: seq<CompanyRecord>): (res: Result<CompanyTable, DbError>)
    requires CompaniesValid(t)
    ensures res.Ok? ==> CompaniesValid(res.value)
    decreases |batch|
  {
    if batch == [] then Ok(t)
    else
      match UpsertCompany(t, batch[0])
      case Err(e) => Err(e)
      case Ok(t1) => UpsertCompanies(t1, batch[1..])
  }

  /** The position of the last record of the batch for account number k. */
  function LastCompanyIndex(batch: seq<CompanyRecord>, k: string): (r: Option<nat>)
    ensures r.Some? ==> r.value < |batch| && batch[r.value].accountNumber == k
                        && forall j :: r.value < j < |batch| ==> batch[j].accountNumber != k
    ensures r.None? ==> forall j :: 0 <= j < |batch| ==> batch[j].accountNumber != k
    decreases |batch|
  {
    if batch == [] then None
    else
      match LastCompanyIndex(batch[1..], k)
      case Some(j) => Some(j + 1)
      case None => if batch[0].accountNumber == k then Some(0) else None
  }

  /**
   * After a successful batch, the row of every account number of the batch holds the
   * columns of the LAST record for it and keeps the status it had (or 'Active' when new);
   * every other row is as before and no row disappears.
   */
  lemma {:induction false} UpsertCompaniesEffect(t: CompanyTable, batch: seq<CompanyRecord>, k: string)
    requires CompaniesValid(t) && UpsertCompanies(t, batch).Ok?
    ensures var t' := UpsertCompanies(t, batch).value;
      match LastCompanyIndex(batch, k)
      case None => (k in t' <==> k in t) && (k in t ==> t'[k] == t[k])
      case Some(i) => k in t' && CarriesCompany(t'[k], batch[i]) && t'[k].status == StatusBefore(t, k)
    decreases |batch|
  {
    if batch != [] {
      var t1 := UpsertCompany(t, batch[0]).value;
      UpsertCompaniesEffect(t1, batch[1..], k);
      assert UpsertCompanies(t, batch) == UpsertCompanies(t1, batch[1..]);
      if k in t1 {
        assert t1[k].status == StatusBefore(t, k);
      }
    }
  }

  /** Every account number of a successful batch is a key of the resulting table. */
  lemma UpsertCompaniesKeys(t: CompanyTable, batch: seq<CompanyRecord>)
    requires CompaniesValid(t) && UpsertCompanies(t, batch).Ok?
    ensures forall c :: c in batch ==> c.accountNumber in UpsertCompanies(t, batch).value
  {
    forall c | c in batch
      ensures c.accountNumber in UpsertCompanies(t, batch).value
    {
      UpsertCompaniesEffect(t, batch, c.accountNumber);
    }
  }

  predicate DistinctAccountNumbers(batch: seq<CompanyRecord>)
  {
    forall i, j :: 0 <= i < j < |batch| ==> batch[i].accountNumber != batch[j].accountNumber
  }

  lemma {:induction false} CompanyBatchNoOp(t: CompanyTable, batch: seq<CompanyRecord>)
    requires CompaniesValid(t)
    requires forall i :: 0 <= i < |batch| ==>
      batch[i].accountNumber in t && CarriesCompany(t[batch[i].accountNumber], batch[i])
    ensures UpsertCompanies(t, batch) == Ok(t)
    decreases |batch|
  {
    if batch != [] {
      var r := batch[0];
      assert MergedCompany(t, r) == t[r.accountNumber];
      assert t[r.accountNumber := MergedCompany(t, r)] == t;
      CompanyBatchNoOp(t, batch[1..]);
    }
  }

  /**
   * Re-running a successful batch whose account numbers are distinct changes nothing:
   * the company half of a sync is idempotent.
   */
  lemma UpsertCompaniesIdempotent(t: CompanyTable, batch: seq<CompanyRecord>)
    requires CompaniesValid(t) && UpsertCompanies(t, batch).Ok? && DistinctAccountNumbers(batch)
    ensures UpsertCompanies(UpsertCompanies(t, batch).value, batch) == UpsertCompanies(t, batch)
  {
    var t' := UpsertCompanies(t, batch).value;
    forall i | 0 <= i < |batch|
      ensures batch[i].accountNumber in t' && CarriesCompany(t'[batch[i].accountNumber], batch[i])
    {
      var k := batch[i].accountNumber;
      UpsertCompaniesEffect(t, batch, k);
      assert LastCompanyIndex(batch, k) == Some(i);
    }
    CompanyBatchNoOp(t', batch);
  }

  // ===========================================================================
  // users: freshservice_id UNIQUE (nullable), email UNIQUE (nullable),
  // full_name and date_added NOT NULL

  datatype User = User(
    accountNumber: string,
    freshserviceId: Option<int>,
    fullName: string,
    email: Option<string>,
    status: string,
    dateAdded: string)

  /** One tuple of the user batch: (company_account_number, id, full_name, email, status, date_added). */
  datatype UserRecord = UserRecord(
    accountNumber: string,
    freshserviceId: Option<int>,
    fullName: string,
    email: Option<string>,
    status: string,
    dateAdded: Option<string>)

  ghost predicate UserIdsUnique(us: seq<User>)
  {
    forall i, j :: 0 <= i < |us| && 0 <= j < |us| && i != j && us[i].freshserviceId.Some? ==>
      us[i].freshserviceId != us[j].freshserviceId
  }

  ghost predicate UsersValid(us: seq<User>)
  {
    && UserIdsUnique(us)
    && (forall i, j :: 0 <= i < |us| && 0 <= j < |us| && i != j && us[i].email.Some? ==>
          us[i].email != us[j].email)
  }

  /** The row holding freshservice_id `id`. */
  function UserIndex(us: seq<User>, id: int): (r: Option<nat>)
    ensures r.Some? ==> r.value < |us| && us[r.value].freshserviceId == Some(id)
    ensures r.None? ==> forall i :: 0 <= i < |us| ==> us[i].freshserviceId != Some(id)
    decreases |us|
  {
    if us == [] then None
    else if us[|us| - 1].freshserviceId == Some(id) then Some(|us| - 1)
    else UserIndex(us[..|us| - 1], id)
  }

  lemma UserIndexUnique(us: seq<User>, id: int, x: nat)
    requires UserIdsUnique(us) && x < |us| && us[x].freshserviceId == Some(id)
    ensures UserIndex(us, id) == Some(x)
  {
  }

  /** The target of `ON CONFLICT(freshservice_id)`; a NULL id never conflicts. */
  function ConflictingUser(us: seq<User>, r: UserRecord): Option<nat>
  {
    if r.freshserviceId.Some? then UserIndex(us, r.freshserviceId.value) else None
  }

  /** The table the statement leaves before UNIQUE(email) is checked. */
  function MergedUsers(us: seq<User>, r: UserRecord): seq<User>
    requires r.dateAdded.Some?
  {
    match ConflictingUser(us, r)
    case Some(i) =>
      us[i := User(r.accountNumber, us[i].freshserviceId, r.fullName, r.email, r.status, us[i].dateAdded)]
    case None =>
      us + [User(r.accountNumber, r.freshserviceId, r.fullName, r.email, r.status, r.dateAdded.value)]
  }

  predicate CarriesUser(u: User, r: UserRecord)
  {
    u.accountNumber == r.accountNumber && u.freshserviceId == r.freshserviceId
    && u.fullName == r.fullName && u.email == r.email && u.status == r.status
  }

  /**
   * `INSERT INTO users ... ON CONFLICT(freshservice_id) DO UPDATE SET company_account_number,
   * full_name, email, status` for one record.
   */
  function UpsertUser(us: seq<User>, r: UserRecord): (res: Result<seq<User>, DbError>)
    requires UsersValid(us)
    ensures res.Ok? <==> r.dateAdded.Some? && UsersValid(MergedUsers(us, r))
    ensures res.Ok? ==> res.value == MergedUsers(us, r)
  {
    if r.dateAdded.None? then Err(NotNullViolation("date_added"))
    else
      var at := match ConflictingUser(us, r) case Some(i) => i case None => |us|;
      var us' := MergedUsers(us, r);
      if r.email.Some? && exists j :: 0 <= j < |us| && j != at && us[j].email == r.email then
        var j :| 0 <= j < |us| && j != at && us[j].email == r.email;
        assert us'[j].email == us'[at].email;
        Err(UniqueViolation("email"))
      else
        Ok(us')
  }

  function UpsertUsers(us: seq<User>, batch: seq<UserRecord>): (res: Result<seq<User>, DbError>)
    requires UsersValid(us)
    ensures res.Ok? ==> UsersValid(res.value)
    decreases |batch|
  {
    if batch == [] then Ok(us)
    else
      match UpsertUser(us, batch[0])
      case Err(e) => Err(e)
      case Ok(us1) => UpsertUsers(us1, batch[1..])
  }

  /** The position of the last record of the batch with freshservice_id `id`. */
  function LastUserIndex(batch: seq<UserRecord>, id: int): (r: Option<nat>)
    ensures r.Some? ==> r.value < |batch| && batch[r.value].freshserviceId == Some(id)
                        && forall j :: r.value < j < |batch| ==> batch[j].freshserviceId != Some(id)
    ensures r.None? ==> forall j :: 0 <= j < |batch| ==> batch[j].freshserviceId != Some(id)
    decreases |batch|
  {
    if batch == [] then None
    else
      match LastUserIndex(batch[1..], id)
      case Some(j) => Some(j + 1)
      case None => if batch[0].freshserviceId == Some(id) then Some(0) else None
  }

  /**
   * A successful batch never deletes or moves a row, and never changes the
   * freshservice_id or the date_added of a row that was already there.
   */
  lemma {:induction false} UpsertUsersKeepsRows(us: seq<User>, batch: seq<UserRecord>)
    requires UsersValid(us) && UpsertUsers(us, batch).Ok?
    ensures var us' := UpsertUsers(us, batch).value;
      |us| <= |us'| && forall i :: 0 <= i < |us| ==>
        us'[i].freshserviceId == us[i].freshserviceId && us'[i].dateAdded == us[i].dateAdded
    decreases |batch|
  {
    if batch != [] {
      var us1 := UpsertUser(us, batch[0]).value;
      UpsertUsersKeepsRows(us1, batch[1..]);
    }
  }

  lemma UpsertUserStep(us: seq<User>, r: UserRecord, id: int)
    requires UsersValid(us) && UpsertUser(us, r).Ok?
    ensures var us1 := UpsertUser(us, r).value;
      if r.freshserviceId == Some(id) then
        UserIndex(us1, id).Some? && CarriesUser(us1[UserIndex(us1, id).value], r)
      else
        UserIndex(us1, id) == UserIndex(us, id)
        && (UserIndex(us, id).Some? ==> us1[UserIndex(us, id).value] == us[UserIndex(us, id).value])
  {
    var us1 := UpsertUser(us, r).value;
    if r.freshserviceId == Some(id) {
      match ConflictingUser(us, r)
      case Some(i) => UserIndexUnique(us1, id, i);
      case None => UserIndexUnique(us1, id, |us|);
    } else if UserIndex(us, id).Some? {
      UserIndexUnique(us1, id, UserIndex(us, id).value);
    } else {
      assert forall i :: 0 <= i < |us1| ==> us1[i].freshserviceId != Some(id);
    }
  }

  /**
   * After a successful batch, the row of every freshservice_id of the batch holds the
   * columns of the LAST record with that id; rows of ids outside the batch are unchanged.
   */
  lemma {:induction false} UpsertUsersLastWins(us: seq<User>, batch: seq<UserRecord>, id: int)
    requires UsersValid(us) && UpsertUsers(us, batch).Ok?
    ensures var us' := UpsertUsers(us, batch).value;
      match LastUserIndex(batch, id)
      case Some(i) => UserIndex(us', id).Some? && CarriesUser(us'[UserIndex(us', id).value], batch[i])
      case None => UserIndex(us', id) == UserIndex(us, id)
                   && (UserIndex(us, id).Some? ==> us'[UserIndex(us, id).value] == us[UserIndex(us, id).value])
    decreases |batch|
  {
    if batch != [] {
      var us1 := UpsertUser(us, batch[0]).value;
      UpsertUserStep(us, batch[0], id);
      UpsertUsersLastWins(us1, batch[1..], id);
    }
  }

  /** Every record carries a freshservice_id, and no two records carry the same one. */
  predicate KeyedUserBatch(batch: seq<UserRecord>)
  {
    && (forall i :: 0 <= i < |batch| ==> batch[i].freshserviceId.Some?)
    && (forall i, j :: 0 <= i < j < |batch| ==> batch[i].freshserviceId != batch[j].freshserviceId)
  }

  /** A successful batch had a date_added in every record. */
  lemma {:induction false} UpsertUsersDated(us: seq<User>, batch: seq<UserRecord>)
    requires UsersValid(us) && UpsertUsers(us, batch).Ok?
    ensures forall i :: 0 <= i < |batch| ==> batch[i].dateAdded.Some?
    decreases |batch|
  {
    if batch != [] {
      UpsertUsersDated(UpsertUser(us, batch[0]).value, batch[1..]);
      assert forall i :: 1 <= i < |batch| ==> batch[i] == batch[1..][i - 1];
    }
  }

  /** A dated batch whose every id already has a row carrying its record changes nothing. */
  lemma {:induction false} UserBatchNoOp(us: seq<User>, batch: seq<UserRecord>)
    requires UsersValid(us)
    requires forall i :: 0 <= i < |batch| ==>
      && batch[i].freshserviceId.Some? && batch[i].dateAdded.Some?
      && UserIndex(us, batch[i].freshserviceId.value).Some?
      && CarriesUser(us[UserIndex(us, batch[i].freshserviceId.value).value], batch[i])
    ensures UpsertUsers(us, batch) == Ok(us)
    decreases |batch|
  {
    if batch != [] {
      var r := batch[0];
      var k := UserIndex(us, r.freshserviceId.value).value;
      assert ConflictingUser(us, r) == Some(k);
      assert MergedUsers(us, r) == us;
      assert UpsertUser(us, r) == Ok(us);
      UserBatchNoOp(us, batch[1..]);
    }
  }

  /**
   * Re-running a successful user batch whose records all carry distinct freshservice ids
   * changes nothing: for users with an id the user half of a sync is idempotent.
   */
  lemma UpsertUsersIdempotent(us: seq<User>, batch: seq<UserRecord>)
    requires UsersValid(us) && UpsertUsers(us, batch).Ok? && KeyedUserBatch(batch)
    ensures UpsertUsers(UpsertUsers(us, batch).value, batch) == UpsertUsers(us, batch)
  {
    var us' := UpsertUsers(us, batch).value;
    UpsertUsersDated(us, batch);
    forall i | 0 <= i < |batch|
      ensures UserIndex(us', batch[i].freshserviceId.value).Some?
      ensures CarriesUser(us'[UserIndex(us', batch[i].freshserviceId.value).value], batch[i])
    {
      var id := batch[i].freshserviceId.value;
      UpsertUsersLastWins(us, batch, id);
      assert LastUserIndex(batch, id) == Some(i);
    }
    UserBatchNoOp(us', batch);
  }

  /**
   * A user record without a freshservice_id never conflicts, so running the same batch
   * again inserts its row a second time: for users without an id a sync is not idempotent.
   */
  lemma NullIdUserInsertedTwice(us: seq<User>, r: UserRecord)
    requires UsersValid(us) && r.freshserviceId.None? && r.email.None? && r.dateAdded.Some?
    ensures UpsertUsers(us, [r]).Ok?
    ensures UpsertUsers(UpsertUsers(us, [r]).value, [r]).Ok?
    ensures |UpsertUsers(UpsertUsers(us, [r]).value, [r]).value| == |us| + 2
  {
    assert [r][1..] == [];
    var us1 := MergedUsers(us, r);
    assert UpsertUser(us, r) == Ok(us1);
    assert UpsertUser(us1, r) == Ok(MergedUsers(us1, r));
  }
  /**
   * A user without a freshservice id but with an email is appended by the first run; a
   * second run appends it again, which repeats the email, so the users batch fails.
   */
  lemma NullIdUserWithEmailRejected(us: seq<User>, r: UserRecord)
    requires UsersValid(us) && r.freshserviceId.None? && r.email.Some? && UpsertUsers(us, [r]).Ok?
    ensures UpsertUsers(UpsertUsers(us, [r]).value, [r]).Err?
  {
    assert [r][1..] == [];
    var us1 := MergedUsers(us, r);
    assert UpsertUser(us, r) == Ok(us1);
    assert 0 <= |us| < |us1| && us1[|us|].email == r.email;
    assert UpsertUser(us1, r).Err?;
  }


  // ===========================================================================
  // assets: datto_uid UNIQUE (nullable), hostname and date_added NOT NULL

  datatype Asset = Asset(
    accountNumber: string,
    dattoUid: Option<string>,
    hostname: string,
    friendlyName: Option<string>,
    deviceType: Option<string>,
    operatingSystem: Option<string>,
    status: string,
    dateAdded: string)

  /** One tuple of the asset batch, in the column order of the INSERT. */
  datatype AssetRecord = AssetRecord(
    accountNumber: string,
    dattoUid: Option<string>,
    hostname: Option<string>,
    friendlyName: Option<string>,
    deviceType: Option<string>,
    operatingSystem: Option<string>,
    status: string,
    dateAdded: Option<string>)

  ghost predicate AssetsValid(rows: seq<Asset>)
  {
    forall i, j :: 0 <= i < |rows| && 0 <= j < |rows| && i != j && rows[i].dattoUid.Some? ==>
      rows[i].dattoUid != rows[j].dattoUid
  }

  /** The row holding datto_uid `uid`. */
  function AssetIndex(rows: seq<Asset>, uid: string): (r: Option<nat>)
    ensures r.Some? ==> r.value < |rows| && rows[r.value].dattoUid == Some(uid)
    ensures r.None? ==> forall i :: 0 <= i < |rows| ==> rows[i].dattoUid != Some(uid)
    decreases |rows|
  {
    if rows == [] then None
    else if rows[|rows| - 1].dattoUid == Some(uid) then Some(|rows| - 1)
    else AssetIndex(rows[..|rows| - 1], uid)
  }

  lemma AssetIndexUnique(rows: seq<Asset>, uid: string, x: nat)
    requires AssetsValid(rows) && x < |rows| && rows[x].dattoUid == Some(uid)
    ensures AssetIndex(rows, uid) == Some(x)
  {
  }

  predicate CarriesAsset(a: Asset, r: AssetRecord)
  {
    r.hostname.Some? && a.accountNumber == r.accountNumber && a.dattoUid == r.dattoUid
    && a.hostname == r.hostname.value && a.friendlyName == r.friendlyName
    && a.deviceType == r.deviceType && a.operatingSystem == r.operatingSystem && a.status == r.status
  }

  /**
   * `INSERT INTO assets ... ON CONFLICT(datto_uid) DO UPDATE SET` every column but
   * date_added, for one record.
   */
  function UpsertAsset(rows: seq<Asset>, r: AssetRecord): (res: Result<seq<Asset>, DbError>)
    requires AssetsValid(rows)
    ensures res.Ok? <==> r.hostname.Some? && r.dateAdded.Some?
    ensures res.Ok? ==> AssetsValid(res.value)
    ensures res.Ok? && r.dattoUid.Some? && AssetIndex(rows, r.dattoUid.value).Some? ==>
      var i := AssetIndex(rows, r.dattoUid.value).value;
      |res.value| == |rows| && CarriesAsset(res.value[i], r) && res.value[i].dateAdded == rows[i].dateAdded
      && forall j :: 0 <= j < |rows| && j != i ==> res.value[j] == rows[j]
    ensures res.Ok? && (r.dattoUid.None? || AssetIndex(rows, r.dattoUid.value).None?) ==>
      |res.value| == |rows| + 1 && res.value[..|rows|] == rows
      && CarriesAsset(res.value[|rows|], r) && res.value[|rows|].dateAdded == r.dateAdded.value
  {
    if r.hostname.None? then Err(NotNullViolation("hostname"))
    else if r.dateAdded.None? then Err(NotNullViolation("date_added"))
    else
      var conflict := if r.dattoUid.Some? then AssetIndex(rows, r.dattoUid.value) else None;
      match conflict
      case Some(i) =>
        Ok(rows[i := Asset(r.accountNumber, rows[i].dattoUid, r.hostname.value, r.friendlyName,
                          r.deviceType, r.operatingSystem, r.status, rows[i].dateAdded)])
      case None =>
        Ok(rows + [Asset(r.accountNumber, r.dattoUid, r.hostname.value, r.friendlyName,
                        r.deviceType, r.operatingSystem, r.status, r.dateAdded.value)])
  }

  function UpsertAssets(rows: seq<Asset>, batch: seq<AssetRecord>): (res: Result<seq<Asset>, DbError>)
    requires AssetsValid(rows)
    ensures res.Ok? ==> AssetsValid(res.value)
    decreases |batch|
  {
    if batch == [] then Ok(rows)
    else
      match UpsertAsset(rows, batch[0])
      case Err(e) => Err(e)
      case Ok(rows1) => UpsertAssets(rows1, batch[1..])
  }

  /** A batch fails exactly when one of its records lacks a hostname or a date_added. */
  lemma {:induction false} UpsertAssetsFailsOnNull(rows: seq<AssetRecord>, t: seq<Asset>)
    requires AssetsValid(t)
    ensures UpsertAssets(t, rows).Err? <==>
      exists i :: 0 <= i < |rows| && (rows[i].hostname.None? || rows[i].dateAdded.None?)
    decreases |rows|
  {
    if rows != [] {
      if UpsertAsset(t, rows[0]).Ok? {
        UpsertAssetsFailsOnNull(rows[1..], UpsertAsset(t, rows[0]).value);
        if exists i :: 0 <= i < |rows| && (rows[i].hostname.None? || rows[i].dateAdded.None?) {
          var i :| 0 <= i < |rows| && (rows[i].hostname.None? || rows[i].dateAdded.None?);
          assert rows[1..][i - 1] == rows[i];
        }
      }
    }
  }

  /** The position of the last record of the batch with datto_uid `uid`. */
  function LastAssetIndex(batch: seq<AssetRecord>, uid: string): (r: Option<nat>)
    ensures r.Some? ==> r.value < |batch| && batch[r.value].dattoUid == Some(uid)
                        && forall j :: r.value < j < |batch| ==> batch[j].dattoUid != Some(uid)
    ensures r.None? ==> forall j :: 0 <= j < |batch| ==> batch[j].dattoUid != Some(uid)
    decreases |batch|
  {
    if batch == [] then None
    else
      match LastAssetIndex(batch[1..], uid)
      case Some(j) => Some(j + 1)
      case None => if batch[0].dattoUid == Some(uid) then Some(0) else None
  }

  /**
   * After a successful batch, the row of every datto_uid of the batch holds the columns of
   * the LAST record with that uid, and an asset row that existed keeps its date_added.
   */
  lemma {:induction false} UpsertAssetsLastWins(rows: seq<Asset>, batch: seq<AssetRecord>, uid: string)
    requires AssetsValid(rows) && UpsertAssets(rows, batch).Ok?
    ensures var rows' := UpsertAssets(rows, batch).value;
      && |rows| <= |rows'|
      && (forall i :: 0 <= i < |rows| ==> rows'[i].dattoUid == rows[i].dattoUid && rows'[i].dateAdded == rows[i].dateAdded)
      && match LastAssetIndex(batch, uid)
         case Some(i) => AssetIndex(rows', uid).Some? && CarriesAsset(rows'[AssetIndex(rows', uid).value], batch[i])
         case None => AssetIndex(rows', uid) == AssetIndex(rows, uid)
                      && (AssetIndex(rows, uid).Some? ==> rows'[AssetIndex(rows, uid).value] == rows[AssetIndex(rows, uid).value])
    decreases |batch|
  {
    if batch != [] {
      var r := batch[0];
      var rows1 := UpsertAsset(rows, r).value;
      UpsertAssetsLastWins(rows1, batch[1..], uid);
      if r.dattoUid == Some(uid) {
        match AssetIndex(rows, uid)
        case Some(i) => AssetIndexUnique(rows1, uid, i);
        case None => AssetIndexUnique(rows1, uid, |rows|);
      } else if AssetIndex(rows, uid).Some? {
        AssetIndexUnique(rows1, uid, AssetIndex(rows, uid).value);
      } else {
        assert forall i :: 0 <= i < |rows1| ==> rows1[i].dattoUid != Some(uid);
      }
    }
  }

  /** Every record carries a datto_uid, and no two records carry the same one. */
  predicate KeyedAssetBatch(batch: seq<AssetRecord>)
  {
    && (forall i :: 0 <= i < |batch| ==> batch[i].dattoUid.Some?)
    && (forall i, j :: 0 <= i < j < |batch| ==> batch[i].dattoUid != batch[j].dattoUid)
  }

  /** A filled batch whose every uid already has a row carrying its record changes nothing. */
  lemma {:induction false} AssetBatchNoOp(rows: seq<Asset>, batch: seq<AssetRecord>)
    requires AssetsValid(rows)
    requires forall i :: 0 <= i < |batch| ==>
      && batch[i].dattoUid.Some? && batch[i].dateAdded.Some?
      && AssetIndex(rows, batch[i].dattoUid.value).Some?
      && CarriesAsset(rows[AssetIndex(rows, batch[i].dattoUid.value).value], batch[i])
    ensures UpsertAssets(rows, batch) == Ok(rows)
    decreases |batch|
  {
    if batch != [] {
      var r := batch[0];
      var k := AssetIndex(rows, r.dattoUid.value).value;
      var rows1 := UpsertAsset(rows, r).value;
      assert rows1[k] == rows[k];
      assert rows1 == rows;
      AssetBatchNoOp(rows, batch[1..]);
    }
  }

  /**
   * Re-running a successful asset batch whose records all carry distinct datto uids
   * changes nothing: for devices with a uid the asset sync is idempotent.
   */
  lemma UpsertAssetsIdempotent(rows: seq<Asset>, batch: seq<AssetRecord>)
    requires AssetsValid(rows) && UpsertAssets(rows, batch).Ok? && KeyedAssetBatch(batch)
    ensures UpsertAssets(UpsertAssets(rows, batch).value, batch) == UpsertAssets(rows, batch)
  {
    var rows' := UpsertAssets(rows, batch).value;
    UpsertAssetsFailsOnNull(batch, rows);
    forall i | 0 <= i < |batch|
      ensures AssetIndex(rows', batch[i].dattoUid.value).Some?
      ensures CarriesAsset(rows'[AssetIndex(rows', batch[i].dattoUid.value).value], batch[i])
    {
      var uid := batch[i].dattoUid.value;
      UpsertAssetsLastWins(rows, batch, uid);
      assert LastAssetIndex(batch, uid) == Some(i);
    }
    AssetBatchNoOp(rows', batch);
  }

  /** A device without a uid is inserted again by every run, like a user without an id. */
  lemma NullUidAssetInsertedTwice(rows: seq<Asset>, r: AssetRecord)
    requires AssetsValid(rows) && r.dattoUid.None? && r.hostname.Some? && r.dateAdded.Some?
    ensures UpsertAssets(rows, [r]).Ok?
    ensures UpsertAssets(UpsertAssets(rows, [r]).value, [r]).Ok?
    ensures |UpsertAssets(UpsertAssets(rows, [r]).value, [r]).value| == |rows| + 2
  {
    assert [r][1..] == [];
  }

  // ===========================================================================
  // billing_plans: PRIMARY KEY (contract_type, billing_plan), billed_by NOT NULL

  datatype Plan = Plan(
    billedBy: string,
    basePrice: real,
    perUserCost: real,
    perServerCost: real,
    perWorkstationCost: real)

  type PlanKey = (string, string)

  type PlanTable = map<PlanKey, Plan>

  /** One tuple built from the settings form; the three text columns may be missing (None). */
  datatype PlanRecord = PlanRecord(
    contractType: Option<string>,
    billingPlan: Option<string>,
    billedBy: Option<string>,
    basePrice: real,
    perUserCost: real,
    perServerCost: real,
    perWorkstationCost: real)

  predicate FilledPlan(r: PlanRecord)
  {
    r.contractType.Some? && r.billingPlan.Some? && r.billedBy.Some?
  }

  function PlanKeyOf(r: PlanRecord): PlanKey
    requires FilledPlan(r)
  {
    (r.contractType.value, r.billingPlan.value)
  }

  function PlanOf(r: PlanRecord): Plan
    requires FilledPlan(r)
  {
    Plan(r.billedBy.value, r.basePrice, r.perUserCost, r.perServerCost, r.perWorkstationCost)
  }

  /**
   * `INSERT OR REPLACE INTO billing_plans` for one record: a NULL in a text column without
   * default aborts; otherwise the row for the key is replaced whole.
   */
  function ReplacePlan(t: PlanTable, r: PlanRecord): (res: Result<PlanTable, DbError>)
    ensures res.Ok? <==> FilledPlan(r)
    ensures res.Ok? ==> res.value.Keys == t.Keys + {PlanKeyOf(r)} && res.value[PlanKeyOf(r)] == PlanOf(r)
                        && forall k :: k in t && k != PlanKeyOf(r) ==> res.value[k] == t[k]
  {
    if r.contractType.None? then Err(NotNullViolation("contract_type"))
    else if r.billingPlan.None? then Err(NotNullViolation("billing_plan"))
    else if r.billedBy.None? then Err(NotNullViolation("billed_by"))
    else Ok(t[PlanKeyOf(r) := PlanOf(r)])
  }

  function ReplacePlans(t: PlanTable, batch: seq<PlanRecord>): Result<PlanTable, DbError>
    decreases |batch|
  {
    if batch == [] then Ok(t)
    else
      match ReplacePlan(t, batch[0])
      case Err(e) => Err(e)
      case Ok(t1) => ReplacePlans(t1, batch[1..])
  }

  /** The position of the last record of the batch for plan key k. */
  function LastPlanIndex(batch: seq<PlanRecord>, k: PlanKey): (r: Option<nat>)
    requires forall i :: 0 <= i < |batch| ==> FilledPlan(batch[i])
    ensures r.Some? ==> r.value < |batch| && PlanKeyOf(batch[r.value]) == k
                        && forall j :: r.value < j < |batch| ==> PlanKeyOf(batch[j]) != k
    ensures r.None? ==> forall j :: 0 <= j < |batch| ==> PlanKeyOf(batch[j]) != k
    decreases |batch|
  {
    if batch == [] then None
    else
      match LastPlanIndex(batch[1..], k)
      case Some(j) => Some(j + 1)
      case None => if PlanKeyOf(batch[0]) == k then Some(0) else None
  }

  /**
   * Saving plans succeeds exactly when every record has its three text columns; then each
   * key of the batch holds the plan of the LAST record with that key and every other plan
   * is unchanged.
   */
  lemma {:induction false} ReplacePlansEffect(t: PlanTable, batch: seq<PlanRecord>, k: PlanKey)
    ensures ReplacePlans(t, batch).Ok? <==> forall i :: 0 <= i < |batch| ==> FilledPlan(batch[i])
    ensures ReplacePlans(t, batch).Ok? ==>
      var t' := ReplacePlans(t, batch).value;
      match LastPlanIndex(batch, k)
      case Some(i) => k in t' && t'[k] == PlanOf(batch[i])
      case None => (k in t' <==> k in t) && (k in t ==> t'[k] == t[k])
    decreases |batch|
  {
    if batch != [] {
      if ReplacePlan(t, batch[0]).Ok? {
        var t1 := ReplacePlan(t, batch[0]).value;
        ReplacePlansEffect(t1, batch[1..], k);
        if forall i :: 0 <= i < |batch| ==> FilledPlan(batch[i]) {
          assert forall i :: 0 <= i < |batch[1..]| ==> FilledPlan(batch[1..][i]) by {
            forall i | 0 <= i < |batch[1..]| ensures FilledPlan(batch[1..][i]) {
              assert batch[1..][i] == batch[i + 1];
            }
          }
        } else {
          var i :| 0 <= i < |batch| && !FilledPlan(batch[i]);
          assert batch[1..][i - 1] == batch[i];
        }
      }
    }
  }

  // ===========================================================================
  // The live database

  /** The contents of all four tables, as a commit makes them durable and a rollback restores them. */
  datatype Tables = Tables(
    companies: CompanyTable,
    users: seq<User>,
    assets: seq<Asset>,
    plans: PlanTable)

  ghost predicate TablesValid(s: Tables)
  {
    CompaniesValid(s.companies) && UsersValid(s.users) && AssetsValid(s.assets)
  }

  class Database {
    var companies: CompanyTable
    var users: seq<User>
    var assets: seq<Asset>
    var plans: PlanTable

    ghost predicate Valid()
      reads this
    {
      TablesValid(Contents())
    }

    function Contents(): Tables
      reads this
    {
      Tables(companies, users, assets, plans)
    }

    /** The empty store the schema script creates. */
    constructor ()
      ensures Valid() && Contents() == Tables(map[], [], [], map[])
    {
      companies, users, assets, plans := map[], [], [], map[];
    }

    /** ROLLBACK: the tables return to the contents saved when the transaction began. */
    method Restore(s: Tables)
      requires TablesValid(s)
      modifies this
      ensures Valid() && Contents() == s
    {
      companies, users, assets, plans := s.companies, s.users, s.assets, s.plans;
    }

    /**
     * `executemany` of the company upsert. On failure the rows before the failing one stay
     * applied inside the open transaction; the caller rolls back.
     */
    method UpsertCompanyBatch(batch: seq<CompanyRecord>) returns (ok: bool)
      requires Valid()
      modifies this
      ensures Valid()
      ensures ok <==> UpsertCompanies(old(companies), batch).Ok?
      ensures ok ==> companies == UpsertCompanies(old(companies), batch).value
      ensures users == old(users) && assets == old(assets) && plans == old(plans)
    {
      var i := 0;
      while i < |batch|
        invariant 0 <= i <= |batch|
        invariant CompaniesValid(companies)
        invariant UpsertCompanies(old(companies), batch) == UpsertCompanies(companies, batch[i..])
        invariant users == old(users) && assets == old(assets) && plans == old(plans)
      {
        assert batch[i..][1..] == batch[i + 1..];
        var r := UpsertCompany(companies, batch[i]);
        if r.Err? {
          return false;
        }
        companies := r.value;
        i := i + 1;
      }
      return true;
    }

    /** `executemany` of the user upsert. */
    method UpsertUserBatch(batch: seq<UserRecord>) returns (ok: bool)
      requires Valid()
      modifies this
      ensures Valid()
      ensures ok <==> UpsertUsers(old(users), batch).Ok?
      ensures ok ==> users == UpsertUsers(old(users), batch).value
      ensures companies == old(companies) && assets == old(assets) && plans == old(plans)
    {
      var i := 0;
      while i < |batch|
        invariant 0 <= i <= |batch|
        invariant UsersValid(users)
        invariant UpsertUsers(old(users), batch) == UpsertUsers(users, batch[i..])
        invariant companies == old(companies) && assets == old(assets) && plans == old(plans)
      {
        assert batch[i..][1..] == batch[i + 1..];
        var r := UpsertUser(users, batch[i]);
        if r.Err? {
          return false;
        }
        users := r.value;
        i := i + 1;
      }
      return true;
    }

    /** `executemany` of the asset upsert. */
    method UpsertAssetBatch(batch: seq<AssetRecord>) returns (ok: bool)
      requires Valid()
      modifies this
      ensures Valid()
      ensures ok <==> UpsertAssets(old(assets), batch).Ok?
      ensures ok ==> assets == UpsertAssets(old(assets), batch).value
      ensures companies == old(companies) && users == old(users) && plans == old(plans)
    {
      var i := 0;
      while i < |batch|
        invariant 0 <= i <= |batch|
        invariant AssetsValid(assets)
        invariant UpsertAssets(old(assets), batch) == UpsertAssets(assets, batch[i..])
        invariant companies == old(companies) && users == old(users) && plans == old(plans)
      {
        assert batch[i..][1..] == batch[i + 1..];
        var r := UpsertAsset(assets, batch[i]);
        if r.Err? {
          return false;
        }
        assets := r.value;
        i := i + 1;
      }
      return true;
    }

    /** `executemany` of `INSERT OR REPLACE INTO billing_plans`. */
    method ReplacePlanBatch(batch: seq<PlanRecord>) returns (ok: bool)
      requires Valid()
      modifies this
      ensures Valid()
      ensures ok <==> ReplacePlans(old(plans), batch).Ok?
      ensures ok ==> plans == ReplacePlans(old(plans), batch).value
      ensures companies == old(companies) && users == old(users) && assets == old(assets)
    {
      var i := 0;
      while i < |batch|
        invariant 0 <= i <= |batch|
        invariant ReplacePlans(old(plans), batch) == ReplacePlans(plans, batch[i..])
        invariant companies == old(companies) && users == old(users) && assets == old(assets)
      {
        assert batch[i..][1..] == batch[i + 1..];
        var r := ReplacePlan(plans, batch[i]);
        if r.Err? {
          return false;
        }
        plans := r.value;
        i := i + 1;
      }
      return true;
    }
  }
}
