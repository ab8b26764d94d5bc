/** The browser key/value store the two managers persist into, with the
    records they write. Each stored value is kept in its decoded form (what
    `JSON.parse` gives back for what the manager wrote under that key). */
module Storage {

  datatype Option<T> = None | Some(value: T)

  /** One leaderboard entry (utils/leaderboard-manager.ts, `HighScore`). */
  datatype HighScore = HighScore(
    id: string,
    playerName: string,
    score: real,
    difficulty: string,
    time: real,
    date: int)

  /** One saved player (utils/profile-manager.ts, `PlayerProfile`). */
  datatype PlayerProfile = PlayerProfile(
    id: string,
    name: string,
    avatarUrl: string,
    createdAt: int)

  /** What the current-player key holds: a saved profile, as the profiles
      page stores it, or the bare name and avatar the profile form stores
      (app/create-profile/profile-form.tsx), which has no id and no
      creation time. */
  datatype CurrentPlayer =
    | SavedProfile(profile: PlayerProfile)
    | NameAndAvatar(name: string, avatarUrl: string)

  /** The decoded value under one key. */
  datatype Stored =
    | ScoreList(scores: seq<HighScore>)
    | ProfileList(profiles: seq<PlayerProfile>)
    | PlayerRecord(player: CurrentPlayer)

  type Store = map<string, Stored>

  const LEADERBOARD_KEY: string := "kids-game-leaderboard"
  const PROFILES_KEY: string := "kids-game-profiles"
  const CURRENT_PLAYER_KEY: string := "kids-game-player"

  /** `a` and `b` agree on every key other than `key`. */
  ghost predicate SameExcept(a: Store, b: Store, key: string)
  {
    forall k :: k != key ==> (k in a <==> k in b) && (k in a ==> a[k] == b[k])
  }
}
