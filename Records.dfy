/**
 * The rows the playlist-score controller reads, and the relation queries it
 * runs on them. The database is a value: the controller itself never writes
 * to it (starting and completing a play are delegated to the room).
 */
module Records {
  import opened Wrappers
  import opened Bytes
  import Query

  /** The authenticated caller; `isAdmin` is membership of the active `admin` group. */
  datatype User = User(id: nat, isAdmin: bool)

  /** A playlist item: one map slot of a multiplayer room. */
  datatype PlaylistItem = PlaylistItem(id: nat, roomId: nat, rulesetId: nat)

  /** A play (multiplayer score) by one user on one playlist item. */
  datatype Score = Score(id: nat, playlistItemId: nat, userId: nat)

  /** The per (playlist item, user) best-score row; `scoreId` is the referenced play, if any. */
  datatype HighScore = HighScore(id: nat, playlistItemId: nat, userId: nat, scoreId: Option<nat>)

  /** A client build: its binary hash and whether it may submit ranked plays. */
  datatype Build = Build(hash: seq<Byte>, allowRanking: bool)

  /**
   * The tables the controller reads. Sequences keep the order in which a
   * query without an explicit order returns rows, so `first()` is the first
   * matching element.
   */
  datatype Db = Db(
    rooms: set<nat>,
    playlistItems: seq<PlaylistItem>,
    scores: seq<Score>,
    highScores: seq<HighScore>,
    builds: seq<Build>)

  /** The playlist item `itemId` of room `roomId` (`$room->playlist()->find($itemId)`). */
  function PlaylistItemOf(db: Db, roomId: nat, itemId: nat): (r: Option<PlaylistItem>)
    ensures r.Some? ==> r.value in db.playlistItems && r.value.roomId == roomId && r.value.id == itemId
    ensures r.None? <==> forall j :: 0 <= j < |db.playlistItems| ==>
      !(db.playlistItems[j].roomId == roomId && db.playlistItems[j].id == itemId)
  {
    Query.First(db.playlistItems, (p: PlaylistItem) => p.roomId == roomId && p.id == itemId)
  }

  /** All high-score rows of a playlist item (`$playlist->highScores()`), in table order. */
  function HighScoresOf(db: Db, itemId: nat): (r: seq<HighScore>)
    ensures forall i :: 0 <= i < |r| ==> r[i] in db.highScores && r[i].playlistItemId == itemId
    ensures forall j :: 0 <= j < |db.highScores| && db.highScores[j].playlistItemId == itemId ==> db.highScores[j] in r
  {
    Query.Where(db.highScores, (h: HighScore) => h.playlistItemId == itemId)
  }

  /**
   * The item's rows are counted with their multiplicity: a row occurs in
   * `HighScoresOf` as often as in the table if it belongs to the item, and
   * not at all otherwise. So `|HighScoresOf(db, itemId)|` is the item's row count.
   */
  lemma HighScoresOfCountsItemRows(db: Db, itemId: nat, h: HighScore)
    ensures multiset(HighScoresOf(db, itemId))[h] ==
      if h.playlistItemId == itemId then multiset(db.highScores)[h] else 0
  {
  }

  /** The high-score row of `userId` on a playlist item (`->where('user_id', $userId)->first()`). */
  function UserHighScore(db: Db, itemId: nat, userId: nat): (r: Option<HighScore>)
    ensures r.Some? ==> r.value in db.highScores && r.value.playlistItemId == itemId && r.value.userId == userId
    ensures r.None? <==> forall j :: 0 <= j < |db.highScores| ==>
      !(db.highScores[j].playlistItemId == itemId && db.highScores[j].userId == userId)
  {
    Query.First(db.highScores, (h: HighScore) => h.playlistItemId == itemId && h.userId == userId)
  }

  /** The play a high-score row refers to (`$highScore->score`); None when it refers to none. */
  function ScoreOf(db: Db, h: HighScore): (r: Option<Score>)
    ensures r.Some? ==> r.value in db.scores && h.scoreId == Some(r.value.id)
    ensures r.None? <==> h.scoreId.None? || forall j :: 0 <= j < |db.scores| ==> db.scores[j].id != h.scoreId.value
  {
    match h.scoreId
    case None => None
    case Some(id) => Query.First(db.scores, (s: Score) => s.id == id)
  }

  /** The play `scoreId` of a playlist item (`$playlistItem->scores()->find($scoreId)`). */
  function ItemScore(db: Db, itemId: nat, scoreId: nat): (r: Option<Score>)
    ensures r.Some? ==> r.value in db.scores && r.value.playlistItemId == itemId && r.value.id == scoreId
    ensures r.None? <==> forall j :: 0 <= j < |db.scores| ==>
      !(db.scores[j].playlistItemId == itemId && db.scores[j].id == scoreId)
  {
    Query.First(db.scores, (s: Score) => s.playlistItemId == itemId && s.id == scoreId)
  }

  /** The play `scoreId` of a playlist item, provided it belongs to `userId`. */
  function OwnedScore(db: Db, itemId: nat, userId: nat, scoreId: nat): (r: Option<Score>)
    ensures r.Some? ==>
      && r.value in db.scores && r.value.playlistItemId == itemId
      && r.value.userId == userId && r.value.id == scoreId
    ensures r.None? <==> forall j :: 0 <= j < |db.scores| ==>
      !(db.scores[j].playlistItemId == itemId && db.scores[j].userId == userId && db.scores[j].id == scoreId)
  {
    Query.First(db.scores, (s: Score) => s.playlistItemId == itemId && s.userId == userId && s.id == scoreId)
  }

  /**
   * The build `Build::where(['hash' => $hash, 'allow_ranking' => true])->firstOrFail()`
   * finds: the first build with this binary hash that may submit ranked plays.
   */
  function RankedBuild(db: Db, hash: seq<Byte>): (r: Option<Build>)
    ensures r.Some? ==> r.value in db.builds && r.value.hash == hash && r.value.allowRanking
    ensures r.None? <==> forall j :: 0 <= j < |db.builds| ==>
      !(db.builds[j].hash == hash && db.builds[j].allowRanking)
  {
    Query.First(db.builds, (b: Build) => b.hash == hash && b.allowRanking)
  }
}
