/**
 * The per-guild registry of src/guilds/data.rs: a map from guild id to the
 * guild's data, whose one member is the guild's music manager. Entries are
 * created on first access and never removed.
 */
module Guilds {
  import opened Base
  import opened Playback
  import opened Manager

  /** `GuildData` (data.rs:24-27); the manager is shared by reference, as through `Arc<Mutex<_>>`. */
  class GuildData {
    const music: MusicManager

    /** The derived `Default`: a fresh manager in its default state. */
    constructor ()
      ensures fresh(music)
      ensures music.Valid() && music.Value() == Playback.Default() && music.events == []
    {
      music := new MusicManager();
    }
  }

  /** `GuildManager` (data.rs:8-22). */
  class GuildManager {
    var guilds: map<u64, GuildData>

    /** Different guilds never share their data or their music manager. */
    ghost predicate Valid()
      reads this
    {
      forall a, b :: a in guilds && b in guilds && a != b ==>
        guilds[a] != guilds[b] && guilds[a].music != guilds[b].music
    }

    /** `GuildManager::new` (data.rs:13-17). */
    constructor ()
      ensures Valid() && guilds == map[]
    {
      guilds := map[];
    }

    /**
     * `get` (data.rs:19-21): the guild's data, created with a default
     * manager on first access; an existing entry is returned as it is.
     */
    method Get(guildId: u64) returns (data: GuildData)
      requires Valid()
      modifies this
      ensures Valid()
      ensures guilds.Keys == old(guilds.Keys) + {guildId}
      ensures guildId in guilds && guilds[guildId] == data
      ensures guildId in old(guilds) ==> data == old(guilds[guildId]) && unchanged(data.music)
      ensures guildId !in old(guilds) ==>
        && fresh(data) && fresh(data.music)
        && data.music.Valid() && data.music.Value() == Playback.Default() && data.music.events == []
      ensures forall k :: k in old(guilds) ==> guilds[k] == old(guilds[k])
    {
      if guildId !in guilds {
        var created := new GuildData();
        guilds := guilds[guildId := created];
      }
      data := guilds[guildId];
    }
  }
}
