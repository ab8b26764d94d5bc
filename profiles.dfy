/** The saved players and the current-player slot (utils/profile-manager.ts).
    Every operation reads the store, builds a new value and writes it back
    whole under its own key; the fresh UUID and the clock are parameters. */
module Profiles {
  import opened Storage

  /** The profiles key, when present, holds a list of profiles. */
  predicate ProfilesShaped(store: Store)
  {
    PROFILES_KEY in store ==> store[PROFILES_KEY].ProfileList?
  }

  /** The current-player key, when present, holds one player record. */
  predicate CurrentShaped(store: Store)
  {
    CURRENT_PLAYER_KEY in store ==> store[CURRENT_PLAYER_KEY].PlayerRecord?
  }

  /** The stored profiles, or the empty list when nothing is stored. */
  function GetProfiles(store: Store): (r: seq<PlayerProfile>)
    requires ProfilesShaped(store)
    ensures PROFILES_KEY !in store ==> r == []
    ensures PROFILES_KEY in store ==> store[PROFILES_KEY] == ProfileList(r)
  {
    if PROFILES_KEY in store then store[PROFILES_KEY].profiles else []
  }

  /** `[p]` unless `p` carries `id`. */
  function KeepUnless(p: PlayerProfile, id: string): seq<PlayerProfile>
  {
    if p.id == id then [] else [p]
  }

  /** The profiles whose id differs from `id`, in their original order. */
  function WithoutId(s: seq<PlayerProfile>, id: string): (r: seq<PlayerProfile>)
    ensures |r| <= |s|
  {
    if s == [] then [] else KeepUnless(s[0], id) + WithoutId(s[1..], id)
  }

  lemma {:induction false} WithoutIdMembers(s: seq<PlayerProfile>, id: string)
    ensures forall p :: p in WithoutId(s, id) <==> p in s && p.id != id
  {
    if s != [] {
      WithoutIdMembers(s[1..], id);
      assert s == [s[0]] + s[1..];
    }
  }

  /** Filtering distributes over concatenation: the survivors keep their order. */
  lemma {:induction false} WithoutIdAppend(a: seq<PlayerProfile>, b: seq<PlayerProfile>, id: string)
    ensures WithoutId(a + b, id) == WithoutId(a, id) + WithoutId(b, id)
  {
    if a == [] {
      assert a + b == b;
    } else {
      var ab := a + b;
      assert ab != [] && ab[0] == a[0];
      assert ab[1..] == a[1..] + b;
      WithoutIdAppend(a[1..], b, id);
      var k, wa, wb := KeepUnless(a[0], id), WithoutId(a[1..], id), WithoutId(b, id);
      assert WithoutId(ab, id) == k + (wa + wb);
      assert WithoutId(a, id) == k + wa;
      assert k + (wa + wb) == (k + wa) + wb;
    }
  }

  lemma {:induction false} WithoutAbsentId(s: seq<PlayerProfile>, id: string)
    requires forall p :: p in s ==> p.id != id
    ensures WithoutId(s, id) == s
  {
    if s != [] {
      assert s[0] in s;
      forall p | p in s[1..] ensures p.id != id {
        assert p in s;
      }
      WithoutAbsentId(s[1..], id);
      assert s == [s[0]] + s[1..];
    }
  }

  lemma WithoutIdIdempotent(s: seq<PlayerProfile>, id: string)
    ensures WithoutId(WithoutId(s, id), id) == WithoutId(s, id)
  {
    WithoutIdMembers(s, id);
    WithoutAbsentId(WithoutId(s, id), id);
  }

  /** Appends a profile built from the given name and avatar, the fresh id and
      the creation time; returns the new store and the new profile. */
  function AddProfile(store: Store, name: string, avatarUrl: string, id: string, now: int)
    : (r: (Store, PlayerProfile))
    requires ProfilesShaped(store)
    ensures r.1 == PlayerProfile(id, name, avatarUrl, now)
    ensures ProfilesShaped(r.0)
    ensures GetProfiles(r.0) == GetProfiles(store) + [r.1]
    ensures SameExcept(store, r.0, PROFILES_KEY)
  {
    var created := PlayerProfile(id, name, avatarUrl, now);
    (store[PROFILES_KEY := ProfileList(GetProfiles(store) + [created])], created)
  }

  /** Removes every profile carrying `id`; the others stay, in order. */
  function DeleteProfile(store: Store, id: string): (r: Store)
    requires ProfilesShaped(store)
    ensures ProfilesShaped(r)
    ensures forall p :: p in GetProfiles(r) <==> p in GetProfiles(store) && p.id != id
    ensures GetProfiles(r) == WithoutId(GetProfiles(store), id)
    ensures SameExcept(store, r, PROFILES_KEY)
  {
    WithoutIdMembers(GetProfiles(store), id);
    store[PROFILES_KEY := ProfileList(WithoutId(GetProfiles(store), id))]
  }

  /** Records `profile` as the current player. */
  function SetCurrentPlayer(store: Store, profile: PlayerProfile): (r: Store)
    ensures CurrentShaped(r)
    ensures GetCurrentPlayer(r) == Some(SavedProfile(profile))
    ensures SameExcept(store, r, CURRENT_PLAYER_KEY)
  {
    store[CURRENT_PLAYER_KEY := PlayerRecord(SavedProfile(profile))]
  }

  /** The profile form's own write of the current player: only the name and
      the avatar, the avatar falling back to `defaultAvatar` (the source's
      `DEFAULT_KID_AVATAR`) when none was uploaded. */
  function SaveFormPlayer(store: Store, name: string, avatarUrl: string, defaultAvatar: string)
    : (r: Store)
    ensures CurrentShaped(r)
    ensures GetCurrentPlayer(r).Some? && GetCurrentPlayer(r).value.NameAndAvatar?
    ensures GetCurrentPlayer(r).value.name == name
    ensures avatarUrl != "" ==> GetCurrentPlayer(r).value.avatarUrl == avatarUrl
    ensures avatarUrl == "" ==> GetCurrentPlayer(r).value.avatarUrl == defaultAvatar
    ensures SameExcept(store, r, CURRENT_PLAYER_KEY)
  {
    var avatar := if avatarUrl != "" then avatarUrl else defaultAvatar;
    store[CURRENT_PLAYER_KEY := PlayerRecord(NameAndAvatar(name, avatar))]
  }

  /** The current player record, whichever form was stored, or `None` (the
      source's `null`) when none is stored. */
  function GetCurrentPlayer(store: Store): (r: Option<CurrentPlayer>)
    requires CurrentShaped(store)
    ensures CURRENT_PLAYER_KEY !in store <==> r == None
    ensures CURRENT_PLAYER_KEY in store ==> store[CURRENT_PLAYER_KEY] == PlayerRecord(r.value)
  {
    if CURRENT_PLAYER_KEY in store then Some(store[CURRENT_PLAYER_KEY].player) else None
  }

  /** Deleting an id no stored profile carries leaves the list as it was. */
  lemma DeleteAbsentIdKeepsProfiles(store: Store, id: string)
    requires ProfilesShaped(store)
    requires forall p :: p in GetProfiles(store) ==> p.id != id
    ensures GetProfiles(DeleteProfile(store, id)) == GetProfiles(store)
  {
    WithoutAbsentId(GetProfiles(store), id);
  }

  /** Deleting twice is deleting once. */
  lemma DeleteTwiceIsDeleteOnce(store: Store, id: string)
    requires ProfilesShaped(store)
    ensures DeleteProfile(DeleteProfile(store, id), id) == DeleteProfile(store, id)
  {
    WithoutIdIdempotent(GetProfiles(store), id);
  }

  /** Deleting the profile just added, when its id was fresh, restores the list. */
  lemma DeleteUndoesAdd(store: Store, name: string, avatarUrl: string, id: string, now: int)
    requires ProfilesShaped(store)
    requires forall p :: p in GetProfiles(store) ==> p.id != id
    ensures GetProfiles(DeleteProfile(AddProfile(store, name, avatarUrl, id, now).0, id))
         == GetProfiles(store)
  {
    var old_ := GetProfiles(store);
    var created := PlayerProfile(id, name, avatarUrl, now);
    WithoutIdAppend(old_, [created], id);
    WithoutAbsentId(old_, id);
    assert WithoutId([created], id) == [];
  }

  /** Adding and deleting profiles never touches the current player, and
      setting the current player never touches the profile list. */
  lemma KeysAreIndependent(store: Store, name: string, avatarUrl: string, id: string, now: int,
                           profile: PlayerProfile)
    requires ProfilesShaped(store) && CurrentShaped(store)
    ensures CurrentShaped(AddProfile(store, name, avatarUrl, id, now).0)
    ensures GetCurrentPlayer(AddProfile(store, name, avatarUrl, id, now).0) == GetCurrentPlayer(store)
    ensures CurrentShaped(DeleteProfile(store, id))
    ensures GetCurrentPlayer(DeleteProfile(store, id)) == GetCurrentPlayer(store)
    ensures ProfilesShaped(SetCurrentPlayer(store, profile))
    ensures GetProfiles(SetCurrentPlayer(store, profile)) == GetProfiles(store)
  {
  }
}
