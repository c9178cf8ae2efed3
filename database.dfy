/**
 * The bot's persistence layer (database.go): three gorm tables with
 * auto-increment ids, TOTP (registered secrets), TempTOTP (drafts of a
 * TOTP being created) and EditableMessageCache (handles on sent messages
 * that a later button press edits).
 *
 * gorm.Model rows are soft-deleted and every query skips deleted rows, so
 * a delete is modelled as removal; ids are never reused. Rows are kept in
 * id order, the order sqlite returns them in when a query has no ORDER BY.
 *
 * Every call takes `fault`: the driver's error text when the call fails,
 * None when it succeeds. A failed call changes nothing.
 *
 * `Tables` is the value of the database and its member functions say what
 * each call of database.go does to it; the `Store` class is the database
 * handle the bot mutates, one method per call.
 */
module Database {
  import opened Wrappers
  import opened Text

  datatype Totp = Totp(id: nat, userId: int, name: string, secret: string)
  datatype TempTotp = TempTotp(id: nat, userId: int, name: Option<string>)
  datatype EditableMessageCache = EditableMessageCache(id: nat, userId: int, messageId: int)

  /** The zero values gorm leaves in the destination when no row is scanned. */
  const ZeroTotp := Totp(0, 0, "", "")
  const ZeroTempTotp := TempTotp(0, 0, None)
  const ZeroCache := EditableMessageCache(0, 0, 0)

  datatype DbError = NotFound | StorageError(text: string)

  /** err.Error(): gorm.ErrRecordNotFound reads "record not found"; a driver error reads as the driver wrote it. */
  function ErrorText(e: DbError): string {
    match e
    case NotFound => "record not found"
    case StorageError(t) => t
  }

  /** What a call that inserts returns: the new tables, the new row's id (0 on failure) and the error. */
  datatype Saved = Saved(tables: Tables, id: nat, err: Option<DbError>)
  /** What a call that updates or deletes returns. */
  datatype Changed = Changed(tables: Tables, err: Option<DbError>)
  /** What a call that reads returns: the scanned value and the error. */
  datatype Found<T> = Found(value: T, err: Option<DbError>)

  // ---------------------------------------------------------------------
  // The secret normalisation of SaveTOTP
  // ---------------------------------------------------------------------

  /** strings.ToUpper(strings.TrimSpace(secret)). */
  function NormalizeSecret(secret: string): string {
    ToUpper(TrimSpace(secret))
  }

  /** Normalising twice is normalising once. */
  lemma NormalizeSecretIdempotent(secret: string)
    ensures NormalizeSecret(NormalizeSecret(secret)) == NormalizeSecret(secret)
  {
    var t := TrimSpace(secret);
    TrimSpaceIsSlice(secret);
    ToUpperKeepsTrimmed(t);
    TrimSpaceOfTrimmed(ToUpper(t));
    ToUpperIdempotent(t);
  }

  /** Only whitespace at the ends goes: whatever lies between the first and the last non-space character, spaces included, is kept and upper-cased. */
  lemma NormalizeSecretKeepsInterior(w: string, t: string, w': string)
    requires AllSpace(w) && AllSpace(w') && Trimmed(t)
    ensures NormalizeSecret(w + t + w') == ToUpper(t)
  {
    TrimSpaceAround(w, t, w');
  }

  /** The result never starts or ends with whitespace and holds no lower-case ASCII letter. */
  lemma NormalizeSecretShape(secret: string)
    ensures Trimmed(NormalizeSecret(secret))
    ensures forall i :: 0 <= i < |NormalizeSecret(secret)| ==> !('a' <= NormalizeSecret(secret)[i] <= 'z')
  {
    TrimSpaceIsSlice(secret);
    ToUpperKeepsTrimmed(TrimSpace(secret));
    ToUpperShape(TrimSpace(secret));
  }

  // ---------------------------------------------------------------------
  // Row selection (the WHERE clauses)
  // ---------------------------------------------------------------------

  /** The rows a WHERE clause keeps, in table order. */
  function Filter<T(!new)>(s: seq<T>, keep: T -> bool): (r: seq<T>)
    ensures |r| <= |s|
    ensures forall x :: x in r <==> x in s && keep(x)
    decreases |s|
  {
    if s == [] then [] else (if keep(s[0]) then [s[0]] else []) + Filter(s[1..], keep)
  }

  /** The first row a WHERE clause matches. */
  function FindFirst<T(!new)>(s: seq<T>, p: T -> bool): (r: Option<T>)
    ensures r.Some? ==> r.value in s && p(r.value)
    ensures r.None? <==> forall x :: x in s ==> !p(x)
    ensures r.Some? ==> r == Some(Filter(s, p)[0])
    decreases |s|
  {
    if s == [] then None else if p(s[0]) then Some(s[0]) else FindFirst(s[1..], p)
  }

  /** Keys strictly ascending in sequence order. */
  ghost predicate Ascending<T>(s: seq<T>, key: T -> nat) {
    forall i, j :: 0 <= i < j < |s| ==> key(s[i]) < key(s[j])
  }

  /** A WHERE clause every row passes keeps the table as it is. */
  lemma {:induction false} FilterKeepsAll<T(!new)>(s: seq<T>, keep: T -> bool)
    ensures (forall x :: x in s ==> keep(x)) ==> Filter(s, keep) == s
    decreases |s|
  {
    if s != [] && forall x :: x in s ==> keep(x) {
      assert s[0] in s;
      assert forall x :: x in s[1..] ==> x in s;
      FilterKeepsAll(s[1..], keep);
    }
  }

  /** Strictly ascending keys, every one in [1, next). */
  ghost predicate IdsBelow<T>(s: seq<T>, key: T -> nat, next: nat) {
    && (forall x :: x in s ==> 1 <= key(x) < next)
    && Ascending(s, key)
  }

  lemma AscendingCons<T>(x: T, t: seq<T>, key: T -> nat)
    requires Ascending(t, key)
    requires forall y :: y in t ==> key(x) < key(y)
    ensures Ascending([x] + t, key)
  {
    var s := [x] + t;
    forall i, j | 0 <= i < j < |s| ensures key(s[i]) < key(s[j]) {
      assert s[j] == t[j - 1] && t[j - 1] in t;
      if i > 0 {
        assert s[i] == t[i - 1];
      }
    }
  }

  /** Dropping rows keeps the survivors in their order. */
  lemma {:induction false} FilterAscending<T(!new)>(s: seq<T>, keep: T -> bool, key: T -> nat)
    requires Ascending(s, key)
    ensures Ascending(Filter(s, keep), key)
    decreases |s|
  {
    if s != [] {
      var tail := s[1..];
      assert Ascending(tail, key) by {
        forall i, j | 0 <= i < j < |tail| ensures key(tail[i]) < key(tail[j]) {
          assert tail[i] == s[i + 1] && tail[j] == s[j + 1];
        }
      }
      FilterAscending(tail, keep, key);
      var ft := Filter(tail, keep);
      if keep(s[0]) {
        forall y | y in ft ensures key(s[0]) < key(y) {
          var k :| 0 <= k < |tail| && tail[k] == y;
          assert s[k + 1] == y;
        }
        AscendingCons(s[0], ft, key);
        assert Filter(s, keep) == [s[0]] + ft;
      } else {
        assert Filter(s, keep) == ft;
      }
    }
  }

  lemma FilterKeepsIds<T(!new)>(s: seq<T>, keep: T -> bool, key: T -> nat, next: nat)
    ensures IdsBelow(s, key, next) ==> IdsBelow(Filter(s, keep), key, next)
  {
    if IdsBelow(s, key, next) {
      FilterAscending(s, keep, key);
    }
  }

  /** Appending a row with the next id keeps ids ascending and below the advanced counter. */
  lemma AppendKeepsIds<T>(s: seq<T>, x: T, key: T -> nat, next: nat)
    requires key(x) == next
    ensures IdsBelow(s, key, next) && next >= 1 ==> IdsBelow(s + [x], key, next + 1)
  {
    if IdsBelow(s, key, next) && next >= 1 {
      var r := s + [x];
      forall i, j | 0 <= i < j < |r| ensures key(r[i]) < key(r[j]) {
        assert r[i] in s;
        if j < |s| {
          assert r[i] == s[i] && r[j] == s[j];
        }
      }
    }
  }

  function TotpId(r: Totp): nat { r.id }
  function TempTotpId(r: TempTotp): nat { r.id }
  function CacheId(r: EditableMessageCache): nat { r.id }

  // ---------------------------------------------------------------------
  // The value of the database
  // ---------------------------------------------------------------------

  datatype Tables = Tables(
    totps: seq<Totp>,
    temps: seq<TempTotp>,
    caches: seq<EditableMessageCache>,
    nextTotpId: nat,
    nextTempId: nat,
    nextCacheId: nat)
  {
    /** Ids are positive, ascending in table order and below the table's counter, so a new row's id was never used. */
    ghost predicate Valid() {
      && nextTotpId >= 1 && nextTempId >= 1 && nextCacheId >= 1
      && IdsBelow(totps, TotpId, nextTotpId)
      && IdsBelow(temps, TempTotpId, nextTempId)
      && IdsBelow(caches, CacheId, nextCacheId)
    }

    /** SaveTOTP: inserts one row holding the normalised secret and returns its id. */
    function SaveTotp(userId: int, name: string, secret: string, fault: Option<string>): (r: Saved)
      ensures fault.Some? ==> r == Saved(this, 0, Some(StorageError(fault.value)))
      ensures fault.None? ==> r.err.None? && r.id == nextTotpId
      ensures fault.None? ==> r.tables.totps == totps + [Totp(r.id, userId, name, NormalizeSecret(secret))]
      ensures fault.None? ==> r.tables == this.(totps := r.tables.totps, nextTotpId := nextTotpId + 1)
      ensures Valid() ==> r.tables.Valid() && (forall x :: x in totps ==> x.id != r.id)
    {
      if fault.Some? then
        Saved(this, 0, Some(StorageError(fault.value)))
      else
        var row := Totp(nextTotpId, userId, name, NormalizeSecret(secret));
        AppendKeepsIds(totps, row, TotpId, nextTotpId);
        Saved(this.(totps := totps + [row], nextTotpId := nextTotpId + 1), nextTotpId, None)
    }

    /** ListTOTPs: the user's live rows, in table order; none is an empty list, not an error. */
    function ListTotps(userId: int, fault: Option<string>): (r: Found<seq<Totp>>)
      ensures fault.Some? ==> r == Found([], Some(StorageError(fault.value)))
      ensures fault.None? ==> r.err.None?
      ensures fault.None? ==> forall x :: x in r.value <==> x in totps && x.userId == userId
    {
      if fault.Some? then Found([], Some(StorageError(fault.value)))
      else Found(Filter(totps, (x: Totp) => x.userId == userId), None)
    }

    /** getTOTP: First on user and id, so a row of another user is not found. */
    function GetTotp(userId: int, totpId: nat, fault: Option<string>): (r: Found<Totp>)
      ensures fault.Some? ==> r == Found(ZeroTotp, Some(StorageError(fault.value)))
      ensures fault.None? && r.err.None? ==> r.value in totps && r.value.userId == userId && r.value.id == totpId
      ensures fault.None? && r.err.Some? ==>
        r == Found(ZeroTotp, Some(NotFound)) && forall x :: x in totps ==> !(x.userId == userId && x.id == totpId)
      ensures fault.None? && (exists x :: x in totps && x.userId == userId && x.id == totpId) ==> r.err.None?
      ensures fault.None? && (forall x :: x in totps ==> !(x.userId == userId && x.id == totpId)) ==>
        r == Found(ZeroTotp, Some(NotFound))
    {
      if fault.Some? then
        Found(ZeroTotp, Some(StorageError(fault.value)))
      else
        match FindFirst(totps, (x: Totp) => x.userId == userId && x.id == totpId)
        case None => Found(ZeroTotp, Some(NotFound))
        case Some(row) => Found(row, None)
    }

    /** DeleteTOTP: removes the row matching both user and id, and succeeds whether or not one matched. */
    function DeleteTotp(userId: int, totpId: nat, fault: Option<string>): (r: Changed)
      ensures fault.Some? ==> r == Changed(this, Some(StorageError(fault.value)))
      ensures fault.None? ==> r.err.None? && r.tables == this.(totps := r.tables.totps)
      ensures fault.None? ==> forall x :: x in r.tables.totps <==> x in totps && !(x.userId == userId && x.id == totpId)
      ensures fault.None? && (forall x :: x in totps ==> !(x.userId == userId && x.id == totpId)) ==> r.tables == this
      ensures Valid() ==> r.tables.Valid()
    {
      if fault.Some? then
        Changed(this, Some(StorageError(fault.value)))
      else
        var keep := (x: Totp) => !(x.userId == userId && x.id == totpId);
        FilterKeepsIds(totps, keep, TotpId, nextTotpId);
        FilterKeepsAll(totps, keep);
        Changed(this.(totps := Filter(totps, keep)), None)
    }

    /** GenerateTOTP: the code of the found row's secret, or "" and getTOTP's error. */
    function GenerateTotp(userId: int, totpId: nat, fault: Option<string>, otp: string -> string): (r: Found<string>)
      ensures r.err == GetTotp(userId, totpId, fault).err
      ensures r.err.Some? ==> r.value == ""
      ensures r.err.None? ==> exists x :: x in totps && x.userId == userId && x.id == totpId && r.value == otp(x.secret)
    {
      var got := GetTotp(userId, totpId, fault);
      if got.err.None? then Found(otp(got.value.secret), None) else Found("", got.err)
    }

    /** GetTempTOTP: Find into a struct scans the user's first draft, and leaves the zero record, without an error, when there is none. */
    function GetTempTotp(userId: int, fault: Option<string>): (r: Found<TempTotp>)
      ensures fault.Some? ==> r == Found(ZeroTempTotp, Some(StorageError(fault.value)))
      ensures fault.None? ==> r.err.None?
      ensures fault.None? && r.value != ZeroTempTotp ==> r.value in temps && r.value.userId == userId
      ensures fault.None? && (exists x :: x in temps && x.userId == userId) ==> r.value in temps && r.value.userId == userId
      ensures fault.None? && (forall x :: x in temps ==> x.userId != userId) ==> r.value == ZeroTempTotp
    {
      if fault.Some? then
        Found(ZeroTempTotp, Some(StorageError(fault.value)))
      else
        match FindFirst(temps, (x: TempTotp) => x.userId == userId)
        case None => Found(ZeroTempTotp, None)
        case Some(row) => Found(row, None)
    }

    /** SaveTempTOTP: tempTotpId plays no part; a new draft row is always inserted. */
    function SaveTempTotp(userId: int, tempTotpId: nat, name: Option<string>, fault: Option<string>): (r: Changed)
      ensures fault.Some? ==> r == Changed(this, Some(StorageError(fault.value)))
      ensures fault.None? ==> r.err.None?
      ensures fault.None? ==> r.tables == this.(temps := temps + [TempTotp(nextTempId, userId, name)], nextTempId := nextTempId + 1)
      ensures Valid() ==> r.tables.Valid()
    {
      if fault.Some? then
        Changed(this, Some(StorageError(fault.value)))
      else
        var row := TempTotp(nextTempId, userId, name);
        AppendKeepsIds(temps, row, TempTotpId, nextTempId);
        Changed(this.(temps := temps + [row], nextTempId := nextTempId + 1), None)
    }

    /** DeleteTempTOTP: removes the draft matching both user and id, and succeeds whether or not one matched. */
    function DeleteTempTotp(userId: int, tempTotpId: nat, fault: Option<string>): (r: Changed)
      ensures fault.Some? ==> r == Changed(this, Some(StorageError(fault.value)))
      ensures fault.None? ==> r.err.None? && r.tables == this.(temps := r.tables.temps)
      ensures fault.None? ==> forall x :: x in r.tables.temps <==> x in temps && !(x.userId == userId && x.id == tempTotpId)
      ensures fault.None? && (forall x :: x in temps ==> !(x.userId == userId && x.id == tempTotpId)) ==> r.tables == this
      ensures Valid() ==> r.tables.Valid()
    {
      if fault.Some? then
        Changed(this, Some(StorageError(fault.value)))
      else
        var keep := (x: TempTotp) => !(x.userId == userId && x.id == tempTotpId);
        FilterKeepsIds(temps, keep, TempTotpId, nextTempId);
        FilterKeepsAll(temps, keep);
        Changed(this.(temps := Filter(temps, keep)), None)
    }

    /** SaveEditableMessage: a new handle for the user, with MessageID 0 until the message is sent. */
    function SaveEditableMessage(userId: int, fault: Option<string>): (r: Saved)
      ensures fault.Some? ==> r == Saved(this, 0, Some(StorageError(fault.value)))
      ensures fault.None? ==> r.err.None? && r.id == nextCacheId
      ensures fault.None? ==>
        r.tables == this.(caches := caches + [EditableMessageCache(r.id, userId, 0)], nextCacheId := nextCacheId + 1)
      ensures Valid() ==> r.tables.Valid() && (forall x :: x in caches ==> x.id != r.id)
    {
      if fault.Some? then
        Saved(this, 0, Some(StorageError(fault.value)))
      else
        var row := EditableMessageCache(nextCacheId, userId, 0);
        AppendKeepsIds(caches, row, CacheId, nextCacheId);
        Saved(this.(caches := caches + [row], nextCacheId := nextCacheId + 1), nextCacheId, None)
    }

    /** UpdateEditableMessage: sets the message id of the handle with that id, whoever owns it; every other row is unchanged. */
    function UpdateEditableMessage(cacheId: nat, messageId: int, fault: Option<string>): (r: Changed)
      ensures fault.Some? ==> r == Changed(this, Some(StorageError(fault.value)))
      ensures fault.None? ==> r.err.None? && r.tables == this.(caches := r.tables.caches)
      ensures fault.None? ==> |r.tables.caches| == |caches|
      ensures fault.None? ==> forall i :: 0 <= i < |caches| ==>
        r.tables.caches[i] == if caches[i].id == cacheId then caches[i].(messageId := messageId) else caches[i]
      ensures Valid() ==> r.tables.Valid()
    {
      if fault.Some? then
        Changed(this, Some(StorageError(fault.value)))
      else
        var updated := seq(|caches|, i requires 0 <= i < |caches| =>
          if caches[i].id == cacheId then caches[i].(messageId := messageId) else caches[i]);
        Changed(this.(caches := updated), None)
    }

    /** DeleteEditableMessage: removes the handle with that id, whoever owns it, and succeeds whether or not it existed. */
    function DeleteEditableMessage(cacheId: nat, fault: Option<string>): (r: Changed)
      ensures fault.Some? ==> r == Changed(this, Some(StorageError(fault.value)))
      ensures fault.None? ==> r.err.None? && r.tables == this.(caches := r.tables.caches)
      ensures fault.None? ==> forall x :: x in r.tables.caches <==> x in caches && x.id != cacheId
      ensures fault.None? && (forall x :: x in caches ==> x.id != cacheId) ==> r.tables == this
      ensures Valid() ==> r.tables.Valid()
    {
      if fault.Some? then
        Changed(this, Some(StorageError(fault.value)))
      else
        var keep := (x: EditableMessageCache) => x.id != cacheId;
        FilterKeepsIds(caches, keep, CacheId, nextCacheId);
        FilterKeepsAll(caches, keep);
        Changed(this.(caches := Filter(caches, keep)), None)
    }

    /** GetEditableMessage: Find by id alone; a missing or consumed handle is the zero record (MessageID 0) without an error. */
    function GetEditableMessage(cacheId: nat, fault: Option<string>): (r: Found<EditableMessageCache>)
      ensures fault.Some? ==> r == Found(ZeroCache, Some(StorageError(fault.value)))
      ensures fault.None? ==> r.err.None?
      ensures fault.None? && (exists x :: x in caches && x.id == cacheId) ==> r.value in caches && r.value.id == cacheId
      ensures fault.None? && (forall x :: x in caches ==> x.id != cacheId) ==> r.value == ZeroCache
    {
      if fault.Some? then
        Found(ZeroCache, Some(StorageError(fault.value)))
      else
        match FindFirst(caches, (x: EditableMessageCache) => x.id == cacheId)
        case None => Found(ZeroCache, None)
        case Some(row) => Found(row, None)
    }
  }

  /** A freshly migrated database: no rows, every counter at 1. */
  const EmptyTables := Tables([], [], [], 1, 1, 1)

  // ---------------------------------------------------------------------
  // What a sequence of calls does
  // ---------------------------------------------------------------------

  /** In a valid table no two rows share an id. */
  lemma IdsUnique<T>(s: seq<T>, key: T -> nat, next: nat, x: T, y: T)
    requires IdsBelow(s, key, next)
    requires x in s && y in s && key(x) == key(y)
    ensures x == y
  {
    var i :| 0 <= i < |s| && s[i] == x;
    var j :| 0 <= j < |s| && s[j] == y;
    assert !(i < j) && !(j < i);
  }

  /** SaveTOTP then getTOTP with the returned id: the saved row, holding the normalised secret. */
  lemma SaveThenGetTotp(t: Tables, userId: int, name: string, secret: string)
    requires t.Valid()
    ensures var saved := t.SaveTotp(userId, name, secret, None);
      saved.tables.GetTotp(userId, saved.id, None) == Found(Totp(saved.id, userId, name, NormalizeSecret(secret)), None)
  {
    var saved := t.SaveTotp(userId, name, secret, None);
    var row := Totp(saved.id, userId, name, NormalizeSecret(secret));
    var got := saved.tables.GetTotp(userId, saved.id, None);
    assert row in saved.tables.totps;
    IdsUnique(saved.tables.totps, TotpId, saved.tables.nextTotpId, got.value, row);
  }

  /**
   * ListTOTPs keeps table order: the listed ids ascend, which together with
   * the membership clause of ListTotps fixes the list to the user's rows in
   * the order they were created.
   */
  lemma ListTotpsInTableOrder(t: Tables, userId: int)
    requires t.Valid()
    ensures Ascending(t.ListTotps(userId, None).value, TotpId)
  {
    FilterAscending(t.totps, (x: Totp) => x.userId == userId, TotpId);
  }

  /** The row SaveTOTP inserts is listed for its owner and for no one else. */
  lemma SaveThenListTotps(t: Tables, userId: int, name: string, secret: string, other: int)
    requires other != userId
    ensures var saved := t.SaveTotp(userId, name, secret, None);
      && Totp(saved.id, userId, name, NormalizeSecret(secret)) in saved.tables.ListTotps(userId, None).value
      && saved.tables.ListTotps(other, None) == t.ListTotps(other, None)
  {
    var saved := t.SaveTotp(userId, name, secret, None);
    var row := Totp(saved.id, userId, name, NormalizeSecret(secret));
    FilterAppendRejected(t.totps, row, (x: Totp) => x.userId == other);
  }

  lemma {:induction false} FilterAppendRejected<T(!new)>(s: seq<T>, x: T, keep: T -> bool)
    requires !keep(x)
    ensures Filter(s + [x], keep) == Filter(s, keep)
    decreases |s|
  {
    if s == [] {
      assert Filter([x], keep) == [] + Filter([x][1..], keep);
    } else {
      assert (s + [x])[1..] == s[1..] + [x];
      FilterAppendRejected(s[1..], x, keep);
    }
  }

  /** After DeleteTOTP the row can no longer be fetched, and so no code can be generated for it. */
  lemma DeleteThenGetTotp(t: Tables, userId: int, totpId: nat, otp: string -> string)
    ensures var deleted := t.DeleteTotp(userId, totpId, None).tables;
      && deleted.GetTotp(userId, totpId, None) == Found(ZeroTotp, Some(NotFound))
      && deleted.GenerateTotp(userId, totpId, None, otp) == Found("", Some(NotFound))
  {
  }

  /** A TOTP id that belongs to another user is not found, even though the row exists. */
  lemma OtherUsersTotpNotFound(t: Tables, userId: int, row: Totp)
    requires t.Valid() && row in t.totps && row.userId != userId
    ensures t.GetTotp(userId, row.id, None) == Found(ZeroTotp, Some(NotFound))
  {
    var got := t.GetTotp(userId, row.id, None);
    if got.err.None? {
      IdsUnique(t.totps, TotpId, t.nextTotpId, got.value, row);
    }
  }

  /**
   * The life of a keyboard handle: SaveEditableMessage creates it with
   * MessageID 0, UpdateEditableMessage records the sent message, a lookup
   * finds that message, and after DeleteEditableMessage the lookup yields
   * the zero record (MessageID 0) and no error.
   */
  lemma EditableMessageLifecycle(t: Tables, userId: int, messageId: int)
    requires t.Valid()
    ensures var saved := t.SaveEditableMessage(userId, None);
      var updated := saved.tables.UpdateEditableMessage(saved.id, messageId, None).tables;
      && saved.tables.GetEditableMessage(saved.id, None) == Found(EditableMessageCache(saved.id, userId, 0), None)
      && updated.GetEditableMessage(saved.id, None) == Found(EditableMessageCache(saved.id, userId, messageId), None)
      && updated.DeleteEditableMessage(saved.id, None).tables.GetEditableMessage(saved.id, None) == Found(ZeroCache, None)
  {
    var saved := t.SaveEditableMessage(userId, None);
    var h := saved.id;
    var row := EditableMessageCache(h, userId, 0);
    var got := saved.tables.GetEditableMessage(h, None);
    assert row in saved.tables.caches;
    IdsUnique(saved.tables.caches, CacheId, saved.tables.nextCacheId, got.value, row);
    var updated := saved.tables.UpdateEditableMessage(h, messageId, None).tables;
    var n := |saved.tables.caches|;
    assert updated.caches[n - 1] == row.(messageId := messageId);
    assert updated.caches[n - 1] in updated.caches;
    var got' := updated.GetEditableMessage(h, None);
    IdsUnique(updated.caches, CacheId, updated.nextCacheId, got'.value, updated.caches[n - 1]);
    var deleted := updated.DeleteEditableMessage(h, None).tables;
    assert forall x :: x in deleted.caches ==> x.id != h;
  }

  // ---------------------------------------------------------------------
  // The database handle
  // ---------------------------------------------------------------------

  /** The *gorm.DB the handlers use: three tables and their id counters, updated in place. */
  class Store {
    var totps: seq<Totp>
    var temps: seq<TempTotp>
    var caches: seq<EditableMessageCache>
    var nextTotpId: nat
    var nextTempId: nat
    var nextCacheId: nat

    function State(): Tables
      reads this
    {
      Tables(totps, temps, caches, nextTotpId, nextTempId, nextCacheId)
    }

    ghost predicate Valid()
      reads this
    {
      State().Valid()
    }

    constructor ()
      ensures State() == EmptyTables && Valid()
    {
      totps, temps, caches := [], [], [];
      nextTotpId, nextTempId, nextCacheId := 1, 1, 1;
    }

    method SaveTotp(userId: int, name: string, secret: string, fault: Option<string>) returns (id: nat, err: Option<DbError>)
      requires Valid()
      modifies this
      ensures Valid()
      ensures Saved(State(), id, err) == old(State()).SaveTotp(userId, name, secret, fault)
    {
      ghost var expected := State().SaveTotp(userId, name, secret, fault);
      if fault.Some? {
        return 0, Some(StorageError(fault.value));
      }
      var row := Totp(nextTotpId, userId, name, NormalizeSecret(secret));
      totps := totps + [row];
      id, err := nextTotpId, None;
      nextTotpId := nextTotpId + 1;
      assert State() == expected.tables;
    }

    method ListTotps(userId: int, fault: Option<string>) returns (rows: seq<Totp>, err: Option<DbError>)
      ensures Found(rows, err) == State().ListTotps(userId, fault)
    {
      if fault.Some? {
        return [], Some(StorageError(fault.value));
      }
      rows, err := Filter(totps, (x: Totp) => x.userId == userId), None;
    }

    method GetTotp(userId: int, totpId: nat, fault: Option<string>) returns (totp: Totp, err: Option<DbError>)
      ensures Found(totp, err) == State().GetTotp(userId, totpId, fault)
    {
      if fault.Some? {
        return ZeroTotp, Some(StorageError(fault.value));
      }
      var found := FindFirst(totps, (x: Totp) => x.userId == userId && x.id == totpId);
      if found.None? {
        totp, err := ZeroTotp, Some(NotFound);
      } else {
        totp, err := found.value, None;
      }
    }

    method DeleteTotp(userId: int, totpId: nat, fault: Option<string>) returns (err: Option<DbError>)
      requires Valid()
      modifies this
      ensures Valid()
      ensures Changed(State(), err) == old(State()).DeleteTotp(userId, totpId, fault)
    {
      if fault.Some? {
        return Some(StorageError(fault.value));
      }
      var keep := (x: Totp) => !(x.userId == userId && x.id == totpId);
      FilterKeepsIds(totps, keep, TotpId, nextTotpId);
      totps := Filter(totps, keep);
      err := None;
    }

    method GenerateTotp(userId: int, totpId: nat, fault: Option<string>, otp: string -> string) returns (code: string, err: Option<DbError>)
      ensures Found(code, err) == State().GenerateTotp(userId, totpId, fault, otp)
    {
      var totp, e := GetTotp(userId, totpId, fault);
      if e.None? {
        return otp(totp.secret), None;
      }
      return "", e;
    }

    method GetTempTotp(userId: int, fault: Option<string>) returns (temp: TempTotp, err: Option<DbError>)
      ensures Found(temp, err) == State().GetTempTotp(userId, fault)
    {
      if fault.Some? {
        return ZeroTempTotp, Some(StorageError(fault.value));
      }
      var found := FindFirst(temps, (x: TempTotp) => x.userId == userId);
      temp := if found.None? then ZeroTempTotp else found.value;
      err := None;
    }

    method SaveTempTotp(userId: int, tempTotpId: nat, name: Option<string>, fault: Option<string>) returns (err: Option<DbError>)
      requires Valid()
      modifies this
      ensures Valid()
      ensures Changed(State(), err) == old(State()).SaveTempTotp(userId, tempTotpId, name, fault)
    {
      if fault.Some? {
        return Some(StorageError(fault.value));
      }
      temps := temps + [TempTotp(nextTempId, userId, name)];
      nextTempId := nextTempId + 1;
      err := None;
    }

    method DeleteTempTotp(userId: int, tempTotpId: nat, fault: Option<string>) returns (err: Option<DbError>)
      requires Valid()
      modifies this
      ensures Valid()
      ensures Changed(State(), err) == old(State()).DeleteTempTotp(userId, tempTotpId, fault)
    {
      if fault.Some? {
        return Some(StorageError(fault.value));
      }
      var keep := (x: TempTotp) => !(x.userId == userId && x.id == tempTotpId);
      FilterKeepsIds(temps, keep, TempTotpId, nextTempId);
      temps := Filter(temps, keep);
      err := None;
    }

    method SaveEditableMessage(userId: int, fault: Option<string>) returns (id: nat, err: Option<DbError>)
      requires Valid()
      modifies this
      ensures Valid()
      ensures Saved(State(), id, err) == old(State()).SaveEditableMessage(userId, fault)
    {
      if fault.Some? {
        return 0, Some(StorageError(fault.value));
      }
      caches := caches + [EditableMessageCache(nextCacheId, userId, 0)];
      id, err := nextCacheId, None;
      nextCacheId := nextCacheId + 1;
    }

    method UpdateEditableMessage(cacheId: nat, messageId: int, fault: Option<string>) returns (err: Option<DbError>)
      requires Valid()
      modifies this
      ensures Valid()
      ensures Changed(State(), err) == old(State()).UpdateEditableMessage(cacheId, messageId, fault)
    {
      if fault.Some? {
        return Some(StorageError(fault.value));
      }
      var rows := caches;
      caches := seq(|rows|, i requires 0 <= i < |rows| =>
        if rows[i].id == cacheId then rows[i].(messageId := messageId) else rows[i]);
      err := None;
    }

    method DeleteEditableMessage(cacheId: nat, fault: Option<string>) returns (err: Option<DbError>)
      requires Valid()
      modifies this
      ensures Valid()
      ensures Changed(State(), err) == old(State()).DeleteEditableMessage(cacheId, fault)
    {
      if fault.Some? {
        return Some(StorageError(fault.value));
      }
      var keep := (x: EditableMessageCache) => x.id != cacheId;
      FilterKeepsIds(caches, keep, CacheId, nextCacheId);
      caches := Filter(caches, keep);
      err := None;
    }

    method GetEditableMessage(cacheId: nat, fault: Option<string>) returns (cache: EditableMessageCache, err: Option<DbError>)
      ensures Found(cache, err) == State().GetEditableMessage(cacheId, fault)
    {
      if fault.Some? {
        return ZeroCache, Some(StorageError(fault.value));
      }
      var found := FindFirst(caches, (x: EditableMessageCache) => x.id == cacheId);
      cache := if found.None? then ZeroCache else found.value;
      err := None;
    }
  }
}
