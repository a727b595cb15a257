/** The token service over the token table: register, revoke and "is this
    id in use". The table and its three stored procedures are abstracted to
    the records of the ids in use, a flag saying the database is failing,
    and the log of calls made to it. */
module TokenStore {
  import opened Prelude
  import opened Numbers
  import opened Guids
  import opened Clock
  import opened TokenKinds
  import opened DbExtensions

  /** The arguments of `AddToken`, as the add procedure receives them. */
  datatype TokenRecord = TokenRecord(
    userNo: int,
    tokenId: string,
    subject: TokenType,
    issuedAt: DateTime,
    expiredAt: DateTime,
    signature: string)

  datatype StoreCall = AddCall(record: TokenRecord) | RemoveCall(tokenId: string) | LookupCall(tokenId: string)

  /** `active` holds the ids registered and not removed since; while
      `failing`, every procedure call throws. */
  datatype Store = Store(active: map<string, TokenRecord>, failing: bool, calls: seq<StoreCall>)

  const BackendError := Exception(Backend, "A network-related or instance-specific error occurred while establishing a connection to SQL Server.")

  /** `AddToken`: registers the record; any failure is swallowed into
      false. The user number is bound as an Int32 parameter, so a number
      outside that range fails the call as well. */
  function AddToken(s: Store, rec: TokenRecord): (r: (Store, bool))
    ensures r.1 <==> !s.failing && IsInt32(rec.userNo)
    ensures r.0.failing == s.failing
    ensures r.0.calls == s.calls + [AddCall(rec)]
    ensures r.0.active.Keys == if r.1 then s.active.Keys + {rec.tokenId} else s.active.Keys
  {
    var logged := s.(calls := s.calls + [AddCall(rec)]);
    if s.failing || !IsInt32(rec.userNo) then (logged, false)
    else (logged.(active := s.active[rec.tokenId := rec]), true)
  }

  /** `RemoveToken`: revokes the id; any failure is swallowed into false. */
  function RemoveToken(s: Store, tokenId: string): (r: (Store, bool))
    ensures r.1 <==> !s.failing
    ensures r.0.failing == s.failing
    ensures r.0.calls == s.calls + [RemoveCall(tokenId)]
    ensures r.0.active.Keys == if s.failing then s.active.Keys else s.active.Keys - {tokenId}
  {
    var logged := s.(calls := s.calls + [RemoveCall(tokenId)]);
    if s.failing then (logged, false)
    else (logged.(active := s.active - {tokenId}), true)
  }

  /** The columns of the token table the lookup procedure returns. */
  const TokenColumns: seq<string> :=
    ["TokenId", "UserNo", "Subject", "CreateDateTime", "ExpiryDateTime", "DestroyYN", "DestroyDateTime", "Signature"]

  /** The text of one token table row. The date columns' text format is the
      database's own; only their presence matters to this model. */
  function RecordRow(rec: TokenRecord): Row {
    map["TokenId" := rec.tokenId, "UserNo" := FormatInt(rec.userNo),
        "Subject" := match rec.subject
                     case AccessToken => "AccessToken"
                     case RefreshToken => "RefreshToken"
                     case Unknown => "Unknown",
        "CreateDateTime" := FormatInt(rec.issuedAt), "ExpiryDateTime" := FormatInt(rec.expiredAt),
        "DestroyYN" := "N", "DestroyDateTime" := "", "Signature" := rec.signature]
  }

  /** The lookup procedure: one table with the token columns and a row for
      the id when it is in use, none otherwise. */
  function GetTokenProcedure(s: Store, tokenId: string): Result<DataSet> {
    if s.failing then Thrown(BackendError)
    else Ok(DataSet([Table(TokenColumns, if tokenId in s.active then [RecordRow(s.active[tokenId])] else [])]))
  }

  /** Against a reachable database, the lookup's result has data exactly
      when the id is registered and not removed. */
  lemma LookupHasData(s: Store, tokenId: string)
    requires !s.failing
    ensures HasData(GetTokenProcedure(s, tokenId).value) <==> tokenId in s.active
  {
  }

  /** The token table row model (`TokenModel(DataRow)`). */
  datatype TokenRow = TokenRow(
    tokenId: Guid, userNo: int, subject: string, createDateTime: DateTime,
    expiryDateTime: DateTime, destroyYn: bool, destroyDateTime: DateTime, signature: string)

  /** The row has every column the token row model reads. */
  predicate HasTokenColumns(row: Row) {
    && "TokenId" in row && "UserNo" in row && "Subject" in row
    && "CreateDateTime" in row && "ExpiryDateTime" in row
    && "DestroyYN" in row && "DestroyDateTime" in row && "Signature" in row
  }

  /** Reads a row into the row model, column by column; the first missing
      column throws. The readers' fallbacks mean no cell text can make it
      throw. */
  function ReadTokenRow(row: Row, parseDate: string -> Option<DateTime>): (r: Result<TokenRow>)
    ensures r.Ok? <==> HasTokenColumns(row)
    ensures r.Thrown? ==> r.error.kind == ColumnMissing
  {
    match GetGuid(row, "TokenId")
    case Thrown(e) => Thrown(e)
    case Ok(id) =>
    match GetLong(row, "UserNo")
    case Thrown(e) => Thrown(e)
    case Ok(user) =>
    match GetString(row, "Subject")
    case Thrown(e) => Thrown(e)
    case Ok(subject) =>
    match GetDateTime(row, "CreateDateTime", parseDate)
    case Thrown(e) => Thrown(e)
    case Ok(created) =>
    match GetDateTime(row, "ExpiryDateTime", parseDate)
    case Thrown(e) => Thrown(e)
    case Ok(expiry) =>
    match GetBool(row, "DestroyYN")
    case Thrown(e) => Thrown(e)
    case Ok(destroyed) =>
    match GetDateTime(row, "DestroyDateTime", parseDate)
    case Thrown(e) => Thrown(e)
    case Ok(destroyedAt) =>
    match GetString(row, "Signature")
    case Thrown(e) => Thrown(e)
    case Ok(signature) =>
      Ok(TokenRow(id, user, subject, created, expiry, destroyed, destroyedAt, signature))
  }

  /** The outcome of `IsUsingToken` for a given procedure result: a row was
      found and mapped. A thrown procedure or mapping yields false. */
  function Found(result: Result<DataSet>, parseDate: string -> Option<DateTime>): bool {
    match result
    case Thrown(_) => false
    case Ok(ds) => HasData(ds) && ReadTokenRow(ds.tables[0].rows[0], parseDate).Ok?
  }

  /** An id is reported in use exactly when the lookup returns a first table
      with a row and a column, and that row has every column the row model
      reads. The destroy flag is not consulted. */
  lemma FoundShape(result: Result<DataSet>, parseDate: string -> Option<DateTime>)
    ensures Found(result, parseDate) <==>
      result.Ok? && HasData(result.value) &&
      HasTokenColumns(result.value.tables[0].rows[0])
  {
  }

  /** `IsUsingToken`: asks the lookup procedure; never throws. */
  function IsUsingToken(s: Store, tokenId: string, parseDate: string -> Option<DateTime>): (r: (Store, bool))
    ensures r.0 == s.(calls := s.calls + [LookupCall(tokenId)])
    ensures s.failing ==> !r.1
  {
    (s.(calls := s.calls + [LookupCall(tokenId)]), Found(GetTokenProcedure(s, tokenId), parseDate))
  }

  /** With the documented procedure semantics, an id is in use exactly when
      it was registered and not removed and the database is reachable. */
  lemma UsingIffActive(s: Store, tokenId: string, parseDate: string -> Option<DateTime>)
    ensures IsUsingToken(s, tokenId, parseDate).1 <==> !s.failing && tokenId in s.active
  {
    var result := GetTokenProcedure(s, tokenId);
    FoundShape(result, parseDate);
    if !s.failing && tokenId in s.active {
      var row := RecordRow(s.active[tokenId]);
      assert result.value.tables[0].rows[0] == row;
      assert HasTokenColumns(row);
    }
  }

  /** After a successful registration the id is in use. */
  lemma AddThenUsing(s: Store, rec: TokenRecord, parseDate: string -> Option<DateTime>)
    requires !s.failing && IsInt32(rec.userNo)
    ensures IsUsingToken(AddToken(s, rec).0, rec.tokenId, parseDate).1
  {
    UsingIffActive(AddToken(s, rec).0, rec.tokenId, parseDate);
  }

  /** After a removal the id is not in use, whether or not it succeeded
      (a failing database answers every lookup with false). */
  lemma RemoveThenNotUsing(s: Store, tokenId: string, parseDate: string -> Option<DateTime>)
    ensures !IsUsingToken(RemoveToken(s, tokenId).0, tokenId, parseDate).1
  {
    UsingIffActive(RemoveToken(s, tokenId).0, tokenId, parseDate);
  }

  /** Registering or removing one id leaves every other id's answer as it
      was. */
  lemma OtherIdsUnaffected(s: Store, rec: TokenRecord, removed: string, other: string, parseDate: string -> Option<DateTime>)
    requires other != rec.tokenId && other != removed
    ensures IsUsingToken(AddToken(s, rec).0, other, parseDate).1 == IsUsingToken(s, other, parseDate).1
    ensures IsUsingToken(RemoveToken(s, removed).0, other, parseDate).1 == IsUsingToken(s, other, parseDate).1
  {
    UsingIffActive(AddToken(s, rec).0, other, parseDate);
    UsingIffActive(RemoveToken(s, removed).0, other, parseDate);
    UsingIffActive(s, other, parseDate);
  }

  /** Lookups change nothing but the call log, so asking twice gives the
      same answer. */
  lemma LookupIsStable(s: Store, a: string, b: string, parseDate: string -> Option<DateTime>)
    ensures IsUsingToken(IsUsingToken(s, a, parseDate).0, b, parseDate).1 == IsUsingToken(s, b, parseDate).1
  {
    UsingIffActive(IsUsingToken(s, a, parseDate).0, b, parseDate);
    UsingIffActive(s, b, parseDate);
  }
}
