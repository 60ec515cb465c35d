/** The process-local registry of erasure previews. */
module ErasurePreviews {
  import opened Prelude
  import PlanDigest

  type PreviewId = string

  /** Tokens are compared by SHA-256, taken to be injective, so the token itself stands for its hash. */
  datatype PreviewEntry = PreviewEntry(
    userId: string, scope: string, target: Option<string>, phrase: string, expiresAt: int, token: string,
    planDigest: PlanDigest.Digest)

  class PreviewRegistry {
    var entries: map<PreviewId, PreviewEntry>

    constructor ()
      ensures entries == map[]
    {
      entries := map[];
    }

    /** Entries still live at `now`. */
    function Live(now: int): map<PreviewId, PreviewEntry>
      reads this
    {
      map id | id in entries && entries[id].expiresAt > now :: entries[id]
    }

    method Register(id: PreviewId, entry: PreviewEntry, now: int)
      modifies this
      ensures entries == old(Live(now))[id := entry]
      ensures forall i :: i in entries <==> i == id || (i in old(entries) && now < old(entries)[i].expiresAt)
      ensures forall i :: i in entries ==> entries[i] == if i == id then entry else old(entries)[i]
    {
      entries := Live(now)[id := entry];
    }

    /** The entry is handed out exactly to its own user with its own token before it expires, any number of times;
        expired entries are dropped on the way. */
    method Get(id: PreviewId, userId: string, token: string, now: int) returns (found: Option<PreviewEntry>)
      modifies this
      ensures entries == old(Live(now))
      ensures found == old(Lookup(id, userId, token, now))
      ensures found.Some? <==> id in old(entries) && userId == old(entries)[id].userId
                               && token == old(entries)[id].token && now < old(entries)[id].expiresAt
      ensures found.Some? ==> found.value == old(entries)[id]
      ensures forall i :: i in entries <==> i in old(entries) && now < old(entries)[i].expiresAt
    {
      entries := Live(now);
      if id !in entries || entries[id].userId != userId || entries[id].expiresAt <= now || entries[id].token != token {
        return None;
      }
      return Some(entries[id]);
    }

    function Lookup(id: PreviewId, userId: string, token: string, now: int): Option<PreviewEntry>
      reads this
    {
      if id in entries && entries[id].expiresAt > now && entries[id].userId == userId && entries[id].token == token
      then Some(entries[id]) else None
    }
  }
}
