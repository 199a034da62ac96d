/**
 * Request logic of the multiplayer playlist-score controller: the paginated
 * leaderboard (`index`), single-score and per-user lookups (`show`,
 * `showUser`), the client-build admission that precedes starting a play
 * (`store`) and the owner-only completion of a play (`update`).
 *
 * Collaborators whose behaviour is not part of this model are parameters:
 * the cursor helper's ordering and cursor filter, `md5`, the mods parser and
 * the room's `completePlay`. Starting a play is recorded as the call that is
 * reached (`PlayStart`), and the next-page cursor as the page it is computed
 * from (`Cursor`).
 */
module ScoresController {
  import opened Wrappers
  import opened Bytes
  import opened Records

  /** An aborted request: an HTTP status and its message. */
  datatype HttpError = HttpError(status: nat, message: string)

  /** What `firstOrFail`, `findOrFail` and a bare `abort(404)` produce. */
  const NotFound := HttpError(404, "")
  const InvalidRoom := HttpError(404, "Invalid room id")
  const InvalidPlaylist := HttpError(404, "Invalid playlist id")
  const MissingClientVersion := HttpError(422, "missing client version")

  const MinLimit := 1
  const MaxLimit := 50
  const DefaultLimit := 50

  /*
   * ---------------------------------------------------------------- index
   */

  /**
   * What the cursor helper has resolved from the request's `sort` and
   * `cursor`: the sort name it settled on (`getSortName()`) and the query
   * `cursorSort($sort, $cursor)`, which orders a relation's rows by that sort
   * and keeps those after the decoded cursor.
   */
  datatype CursorHelper = CursorHelper(sortName: string, cursorSort: seq<HighScore> -> seq<HighScore>)

  /**
   * The helper's query is a scope on the item's high-score relation: it can
   * reorder and drop rows, never add one.
   */
  ghost predicate OrdersAndFilters(cursorSort: seq<HighScore> -> seq<HighScore>) {
    forall rows :: multiset(cursorSort(rows)) <= multiset(rows)
  }

  /**
   * Every page `Index` can return, a prefix of the helper's ordering of the
   * item's rows, holds only rows of the item, none more often than the
   * table does, and so never more rows than `total`.
   */
  lemma {:induction false} PageWithinItemRows(db: Db, itemId: nat, helper: CursorHelper, k: nat)
    requires OrdersAndFilters(helper.cursorSort)
    requires k <= |helper.cursorSort(HighScoresOf(db, itemId))|
    ensures multiset(helper.cursorSort(HighScoresOf(db, itemId))[..k]) <= multiset(HighScoresOf(db, itemId))
    ensures k <= |HighScoresOf(db, itemId)|
  {
    var all := HighScoresOf(db, itemId);
    var ordered := helper.cursorSort(all);
    assert multiset(ordered) <= multiset(all);
    assert ordered == ordered[..k] + ordered[k..];
    assert multiset(ordered) == multiset(ordered[..k]) + multiset(ordered[k..]);
    assert multiset(all) == multiset(ordered[..k]) + (multiset(all) - multiset(ordered[..k]));
    assert |multiset(ordered[..k])| == k;
  }

  /** The next-page cursor, as the helper's `next()` computes it from the returned page. */
  datatype Cursor = NextAfter(page: seq<HighScore>)

  /** The body of the `index` response. */
  datatype IndexResponse = IndexResponse(
    cursor: Option<Cursor>,
    limit: nat,
    sort: string,
    scores: seq<HighScore>,
    total: nat,
    userScore: Option<HighScore>)

  /** `clamp(get_int($limit) ?? 50, 1, 50)`; None is a missing or non-integer `limit`. */
  function ClampLimit(requested: Option<int>): (limit: nat)
    ensures MinLimit <= limit <= MaxLimit
    ensures requested.None? ==> limit == DefaultLimit
    ensures requested.Some? && MinLimit <= requested.value <= MaxLimit ==> limit == requested.value
    ensures requested.Some? && requested.value < MinLimit ==> limit == MinLimit
    ensures requested.Some? && requested.value > MaxLimit ==> limit == MaxLimit
  {
    var n := requested.GetOr(DefaultLimit);
    if n < MinLimit then MinLimit else if n > MaxLimit then MaxLimit else n
  }

  /** `->limit($n)->get()`: at most the first `n` rows. */
  function Take(rows: seq<HighScore>, n: nat): (r: seq<HighScore>)
    ensures |r| == if |rows| < n then |rows| else n
    ensures r == rows[..|r|]
  {
    if |rows| < n then rows else rows[..n]
  }

  /**
   * `index`: one leaderboard page of a playlist item. The controller fetches
   * one row more than the limit; that row only signals that there is more,
   * and is popped before the page is returned.
   */
  method Index(db: Db, roomId: nat, playlistId: nat, requestedLimit: Option<int>,
               helper: CursorHelper, user: Option<User>)
    returns (r: Result<IndexResponse, HttpError>)
    ensures r.Failure? <==> PlaylistItemOf(db, roomId, playlistId).None?
    ensures r.Failure? ==> r.error == NotFound
    ensures r.Success? ==>
      var item := PlaylistItemOf(db, roomId, playlistId).value;
      var ordered := helper.cursorSort(HighScoresOf(db, item.id));
      var fetched := Take(ordered, r.value.limit + 1);
      var page := r.value;
      // the limit: clamped, defaulting to 50
      && MinLimit <= page.limit <= MaxLimit
      && page.limit == ClampLimit(requestedLimit)
      // what was fetched, and what is left of it
      && |fetched| <= page.limit + 1
      && page.scores == (if |fetched| == page.limit + 1 then fetched[..page.limit] else fetched)
      // the page is the start of the ordered rows, never longer than the limit
      && |page.scores| <= page.limit
      && page.scores == ordered[..|page.scores|]
      && |page.scores| == (if |ordered| < page.limit then |ordered| else page.limit)
      // a cursor exactly when the extra row arrived, i.e. when rows remain after the page
      && (page.cursor.Some? <==> |fetched| == page.limit + 1)
      && (page.cursor.Some? <==> |ordered| > page.limit)
      && (page.cursor.Some? ==> page.cursor.value == NextAfter(page.scores))
      // the resolved sort name, the unpaginated count, and the caller's own row
      && page.sort == helper.sortName
      && page.total == |HighScoresOf(db, item.id)|
      && (user.None? ==> page.userScore.None?)
      && (user.Some? ==> page.userScore == UserHighScore(db, item.id, user.value.id))
  {
    var playlist := PlaylistItemOf(db, roomId, playlistId);
    if playlist.None? {
      return Failure(NotFound);
    }
    var limit := ClampLimit(requestedLimit);
    var all := HighScoresOf(db, playlist.value.id);
    var ordered := helper.cursorSort(all);
    var highScores := Take(ordered, limit + 1);
    var hasMore := |highScores| == limit + 1;
    if hasMore {
      highScores := highScores[..|highScores| - 1];
    }
    var total := |all|;
    var userScore := None;
    if user.Some? {
      userScore := UserHighScore(db, playlist.value.id, user.value.id);
    }
    var cursor := if hasMore then Some(NextAfter(highScores)) else None;
    return Success(IndexResponse(cursor, limit, helper.sortName, highScores, total, userScore));
  }

  /*
   * ---------------------------------------------------------- show, showUser
   */

  /** `show`: the play `scoreId` of the playlist item `playlistId` of room `roomId`. */
  function Show(db: Db, roomId: nat, playlistId: nat, scoreId: nat): (r: Result<Score, HttpError>)
    ensures roomId !in db.rooms ==> r == Failure(InvalidRoom)
    ensures roomId in db.rooms && PlaylistItemOf(db, roomId, playlistId).None? ==> r == Failure(InvalidPlaylist)
    ensures r.Success? <==>
      && roomId in db.rooms
      && PlaylistItemOf(db, roomId, playlistId).Some?
      && ItemScore(db, playlistId, scoreId).Some?
    ensures (roomId in db.rooms && PlaylistItemOf(db, roomId, playlistId).Some? &&
             ItemScore(db, playlistId, scoreId).None?) ==> r == Failure(NotFound)
    ensures r.Success? ==> r.value in db.scores && r.value.id == scoreId && r.value.playlistItemId == playlistId
    ensures r.Failure? ==> r.error in {InvalidRoom, InvalidPlaylist, NotFound}
  {
    if roomId !in db.rooms then Failure(InvalidRoom)
    else match PlaylistItemOf(db, roomId, playlistId)
      case None => Failure(InvalidPlaylist)
      case Some(item) =>
        match ItemScore(db, item.id, scoreId)
        case None => Failure(NotFound)
        case Some(score) => Success(score)
  }

  /**
   * `showUser`: the play behind the high-score row of `userId` on the playlist
   * item; 404 when the user has no high-score row or the row refers to no play.
   */
  function ShowUser(db: Db, roomId: nat, playlistId: nat, userId: nat): (r: Result<Score, HttpError>)
    ensures roomId !in db.rooms ==> r == Failure(InvalidRoom)
    ensures roomId in db.rooms && PlaylistItemOf(db, roomId, playlistId).None? ==> r == Failure(InvalidPlaylist)
    ensures (roomId in db.rooms && PlaylistItemOf(db, roomId, playlistId).Some? &&
             UserHighScore(db, playlistId, userId).None?) ==> r == Failure(NotFound)
    ensures (roomId in db.rooms && PlaylistItemOf(db, roomId, playlistId).Some? &&
             UserHighScore(db, playlistId, userId).Some? &&
             ScoreOf(db, UserHighScore(db, playlistId, userId).value).None?) ==> r == Failure(NotFound)
    ensures r.Success? <==>
      && roomId in db.rooms
      && PlaylistItemOf(db, roomId, playlistId).Some?
      && UserHighScore(db, playlistId, userId).Some?
      && ScoreOf(db, UserHighScore(db, playlistId, userId).value).Some?
    ensures r.Success? ==>
      && r.value in db.scores
      && exists h :: h in db.highScores && h.playlistItemId == playlistId && h.userId == userId
           && h.scoreId == Some(r.value.id)
    ensures r.Failure? ==> r.error in {InvalidRoom, InvalidPlaylist, NotFound}
  {
    if roomId !in db.rooms then Failure(InvalidRoom)
    else match PlaylistItemOf(db, roomId, playlistId)
      case None => Failure(InvalidPlaylist)
      case Some(item) =>
        match UserHighScore(db, item.id, userId)
        case None => Failure(NotFound)
        case Some(h) =>
          match ScoreOf(db, h)
          case None => Failure(NotFound)
          case Some(score) => Success(score)
  }

  /*
   * ---------------------------------------------------------------- store
   */

  /** `$room->startPlay($user, $playlistItem)` is reached with these arguments. */
  datatype PlayStart = StartPlay(roomId: nat, user: User, item: PlaylistItem)

  /** `md5` always yields a digest in its 32-character text form. */
  ghost predicate IsDigestFunction(md5: seq<Byte> -> seq<Byte>) {
    forall s :: |md5(s)| == 32
  }

  /**
   * The client hash as looked up: a value of exactly 32 bytes is taken to be
   * a digest already and kept; any other value is replaced by its MD5 digest.
   * Only the length decides, not whether the bytes are hexadecimal.
   */
  function NormalizeClientHash(hash: seq<Byte>, md5: seq<Byte> -> seq<Byte>): (r: seq<Byte>)
    requires IsDigestFunction(md5)
    ensures |r| == 32
    ensures r == hash <==> |hash| == 32
    ensures |hash| != 32 ==> r == md5(hash)
  {
    if |hash| != 32 then md5(hash) else hash
  }

  /**
   * A non-admin's client is admitted: the version hash is present and not
   * blank, and its normalized form decodes (`hex2bin`) to the hash of a build
   * that allows ranking. A decoding failure matches no build.
   */
  predicate ClientAdmitted(db: Db, versionHash: Option<seq<Byte>>, md5: seq<Byte> -> seq<Byte>)
    requires IsDigestFunction(md5)
    ensures ClientAdmitted(db, versionHash, md5) ==>
      Presence(versionHash).Some? && IsHexText(NormalizeClientHash(Presence(versionHash).value, md5))
  {
    && Presence(versionHash).Some?
    && var bin := Hex2Bin(NormalizeClientHash(Presence(versionHash).value, md5));
       bin.Some? && RankedBuild(db, bin.value).Some?
  }

  /**
   * `store`: start a play on a playlist item. Admins start it directly; anyone
   * else must present the version hash of a build that allows ranking.
   */
  method Store(db: Db, roomId: nat, playlistId: nat, user: User,
               versionHash: Option<seq<Byte>>, md5: seq<Byte> -> seq<Byte>)
    returns (r: Result<PlayStart, HttpError>)
    requires IsDigestFunction(md5)
    ensures roomId !in db.rooms ==> r == Failure(NotFound)
    ensures PlaylistItemOf(db, roomId, playlistId).None? ==> r == Failure(NotFound)
    ensures r.Success? <==>
      && roomId in db.rooms
      && PlaylistItemOf(db, roomId, playlistId).Some?
      && (user.isAdmin || ClientAdmitted(db, versionHash, md5))
    ensures r.Success? ==> r.value == StartPlay(roomId, user, PlaylistItemOf(db, roomId, playlistId).value)
    ensures r == Failure(MissingClientVersion) <==>
      && roomId in db.rooms
      && PlaylistItemOf(db, roomId, playlistId).Some?
      && !user.isAdmin
      && Presence(versionHash).None?
    ensures r.Failure? ==> r.error == NotFound || r.error == MissingClientVersion
  {
    if roomId !in db.rooms {
      return Failure(NotFound);
    }
    var playlistItem := PlaylistItemOf(db, roomId, playlistId);
    if playlistItem.None? {
      return Failure(NotFound);
    }
    if !user.isAdmin {
      var clientHash := Presence(versionHash);
      if clientHash.None? {
        return Failure(MissingClientVersion);
      }
      var hash := clientHash.value;
      if |hash| != 32 {
        hash := md5(hash);
      }
      var bin := Hex2Bin(hash);
      if bin.None? || RankedBuild(db, bin.value).None? {
        return Failure(NotFound);
      }
    }
    return Success(StartPlay(roomId, user, playlistItem.value));
  }

  /** A value of 32 bytes that is not hexadecimal text is kept as it is, and so never admitted. */
  lemma LengthDecidesNotContent(db: Db, hash: seq<Byte>, md5: seq<Byte> -> seq<Byte>)
    requires IsDigestFunction(md5)
    requires |hash| == 32 && !IsHexText(hash)
    ensures NormalizeClientHash(hash, md5) == hash
    ensures !ClientAdmitted(db, Some(hash), md5)
  {
  }

  /** Any other non-blank value is admitted exactly when its MD5 digest decodes to a ranked build's hash. */
  lemma OtherLengthsAreDigested(db: Db, hash: seq<Byte>, md5: seq<Byte> -> seq<Byte>)
    requires IsDigestFunction(md5)
    requires |hash| != 32 && !IsBlank(hash)
    ensures ClientAdmitted(db, Some(hash), md5) <==>
      Hex2Bin(md5(hash)).Some? && RankedBuild(db, Hex2Bin(md5(hash)).value).Some?
  {
  }

  /**
   * Conversely, only a ranked build with a 16-byte hash can ever admit a
   * client: the looked-up text always has 32 bytes, so a build whose hash
   * has any other length is never matched.
   */
  lemma AdmittedOnlyBySixteenByteBuild(db: Db, versionHash: Option<seq<Byte>>, md5: seq<Byte> -> seq<Byte>)
    requires IsDigestFunction(md5)
    requires ClientAdmitted(db, versionHash, md5)
    ensures exists b :: b in db.builds && b.allowRanking && |b.hash| == 16
  {
    var text := NormalizeClientHash(Presence(versionHash).value, md5);
    var bin := Hex2Bin(text).value;
    assert |text| == 32 == 2 * |bin|;
    var b := RankedBuild(db, bin).value;
    assert b in db.builds && b.allowRanking && |b.hash| == 16;
  }

  /** The digest text of a ranked build (its hash as lower-case hexadecimal) is admitted. */
  lemma RankedBuildDigestAdmitted(db: Db, b: Build, md5: seq<Byte> -> seq<Byte>)
    requires IsDigestFunction(md5)
    requires b in db.builds && b.allowRanking && |b.hash| == 16
    ensures ClientAdmitted(db, Some(Bin2Hex(b.hash)), md5)
  {
    var text := Bin2Hex(b.hash);
    Hex2BinOfBin2Hex(b.hash);
    assert HexDigit(text[0]).Some?;
    assert !IsBlank(text);
  }

  /*
   * ---------------------------------------------------------------- update
   */

  /** An exception from the domain layer: a caller-facing message and its HTTP status. */
  datatype InvariantException = InvariantException(message: string, statusCode: int)

  /** One entry of the submitted `mods` list. */
  datatype Mod = Mod(acronym: string, settings: map<string, string>)

  /**
   * The completion request body, after `get_int` / `get_bool` conversion; a
   * missing or unconvertible field is None. `accuracy` is not modelled.
   */
  datatype ScoreRequest = ScoreRequest(
    rank: Option<string>,
    totalScore: Option<int>,
    maxCombo: Option<int>,
    passed: Option<bool>,
    mods: Option<seq<Mod>>,
    statistics: Option<map<string, int>>)

  /** What is handed to `completePlay`. */
  datatype ScoreParams = ScoreParams(
    rank: Option<string>,
    totalScore: Option<int>,
    maxCombo: Option<int>,
    endedAt: int,
    passed: Option<bool>,
    mods: seq<Mod>,
    statistics: Option<map<string, int>>)

  /** A completed `update`: the finished play, or the error popup made from an invariant failure. */
  datatype UpdateResponse = Completed(score: Score) | ErrorPopup(message: string, status: int)

  /**
   * `extractScoreParams`: the request fields pass through unchanged, `mods`
   * (an empty list when absent) goes through the mods parser for the item's
   * ruleset, and `ended_at` is the current time. A parser failure propagates.
   */
  function ExtractScoreParams(req: ScoreRequest, item: PlaylistItem, now: int,
                              parseMods: (seq<Mod>, nat) -> Result<seq<Mod>, InvariantException>)
    : (r: Result<ScoreParams, InvariantException>)
    ensures r.Failure? <==> parseMods(req.mods.GetOr([]), item.rulesetId).Failure?
    ensures r.Failure? ==> r.error == parseMods(req.mods.GetOr([]), item.rulesetId).error
    ensures r.Success? ==>
      && r.value.mods == parseMods(req.mods.GetOr([]), item.rulesetId).value
      && r.value.rank == req.rank && r.value.totalScore == req.totalScore
      && r.value.maxCombo == req.maxCombo && r.value.passed == req.passed
      && r.value.statistics == req.statistics && r.value.endedAt == now
  {
    match parseMods(req.mods.GetOr([]), item.rulesetId)
    case Failure(e) => Failure(e)
    case Success(mods) =>
      Success(ScoreParams(req.rank, req.totalScore, req.maxCombo, now, req.passed, mods, req.statistics))
  }

  /**
   * `update`: complete the caller's own play on a playlist item. Only a play
   * that matches the item, the caller and the score id is completed; an
   * `InvariantException` becomes an error popup with its message and status.
   */
  method Update(db: Db, roomId: nat, playlistId: nat, scoreId: nat, user: User,
                req: ScoreRequest, now: int,
                parseMods: (seq<Mod>, nat) -> Result<seq<Mod>, InvariantException>,
                completePlay: (Score, ScoreParams) -> Result<Score, InvariantException>)
    returns (r: Result<UpdateResponse, HttpError>)
    ensures r.Success? <==>
      && roomId in db.rooms
      && PlaylistItemOf(db, roomId, playlistId).Some?
      && OwnedScore(db, playlistId, user.id, scoreId).Some?
    ensures r.Failure? ==> r.error == NotFound
    ensures r.Success? ==>
      var item := PlaylistItemOf(db, roomId, playlistId).value;
      var own := OwnedScore(db, playlistId, user.id, scoreId).value;
      var params := ExtractScoreParams(req, item, now, parseMods);
      // only the caller's own play of this item is completed
      && own in db.scores && own.userId == user.id && own.id == scoreId && own.playlistItemId == playlistId
      // an invariant failure while extracting the parameters is a popup, and `completePlay` is not reached
      && (params.Failure? ==> r.value == ErrorPopup(params.error.message, params.error.statusCode))
      // otherwise the outcome is `completePlay`'s, with its invariant failure turned into a popup
      && (params.Success? ==>
            match completePlay(own, params.value)
            case Success(done) => r.value == Completed(done)
            case Failure(e) => r.value == ErrorPopup(e.message, e.statusCode))
  {
    if roomId !in db.rooms {
      return Failure(NotFound);
    }
    var playlistItem := PlaylistItemOf(db, roomId, playlistId);
    if playlistItem.None? {
      return Failure(NotFound);
    }
    var roomScore := OwnedScore(db, playlistItem.value.id, user.id, scoreId);
    if roomScore.None? {
      return Failure(NotFound);
    }
    var params := ExtractScoreParams(req, playlistItem.value, now, parseMods);
    if params.Failure? {
      return Success(ErrorPopup(params.error.message, params.error.statusCode));
    }
    var outcome := completePlay(roomScore.value, params.value);
    match outcome {
      case Success(score) => r := Success(Completed(score));
      case Failure(e) => r := Success(ErrorPopup(e.message, e.statusCode));
    }
  }
}
