/** The in-memory session registry of session_manager.py: a dictionary from session id to its turns. */
module SessionRegistry {
  import opened Common
  import Text

  type Sessions = map<string, seq<Turn>>

  /** The prefix of a generated session id. */
  const SessionPrefix: string := "session_"

  predicate IsHexDigit(c: char)
  {
    '0' <= c <= '9' || 'a' <= c <= 'f'
  }

  /** What `uuid.uuid4().hex` yields: 32 lower-case hexadecimal digits. */
  predicate IsUuidHex(h: string)
  {
    |h| == 32 && forall i :: 0 <= i < |h| ==> IsHexDigit(h[i])
  }

  /** Python truthiness of the optional `name` argument: neither `None` nor "". */
  predicate NameGiven(name: Option<string>)
  {
    name.Some? && name.value != ""
  }

  /** The id `create_session` uses: the name itself when one is given, otherwise
      `"session_"` followed by the first six digits of a fresh uuid. */
  function ChosenId(name: Option<string>, uuidHex: string): (id: string)
    requires IsUuidHex(uuidHex)
    ensures NameGiven(name) ==> id == name.value
    ensures !NameGiven(name) ==>
              |id| == 14 && id[..8] == SessionPrefix && id[8..] == uuidHex[..6]
              && forall i :: 8 <= i < 14 ==> IsHexDigit(id[i])
  {
    if NameGiven(name) then name.value else SessionPrefix + uuidHex[..6]
  }

  /** `sessions.get(id, [])`: the stored turns of a known id, and `[]` for an unknown one. */
  function Lookup(m: Sessions, id: string): (r: seq<Turn>)
    ensures id in m ==> r == m[id]
    ensures id !in m ==> r == []
  {
    if id in m then m[id] else []
  }

  /** The registry after `sessions[id] = []`: `id` is present and empty, whatever it held before. */
  function Created(m: Sessions, id: string): (r: Sessions)
    ensures r.Keys == m.Keys + {id}
    ensures r[id] == []
    ensures forall k :: k in m && k != id ==> r[k] == m[k]
  {
    m[id := []]
  }

  /** The guard of `rename_session`: the old id is present and the new one is not blank. */
  predicate RenameApplies(m: Sessions, oldName: string, newName: string): (b: bool)
    ensures b <==> oldName in m && !Text.IsBlank(newName)
  {
    oldName in m && Text.Strip(newName) != ""
  }

  /** The id `rename_session` returns: the new name when the rename takes effect, the old one otherwise.
      Either way it is a key of the registry afterwards exactly when the old id was one before. */
  function EffectiveId(m: Sessions, oldName: string, newName: string): (id: string)
    ensures oldName in m && !Text.IsBlank(newName) ==> id == newName
    ensures oldName !in m || Text.IsBlank(newName) ==> id == oldName
    ensures id in Renamed(m, oldName, newName) <==> oldName in m
  {
    if RenameApplies(m, oldName, newName) then newName else oldName
  }

  /** The registry after `sessions[new] = sessions.pop(old)` when the guard holds, else unchanged. */
  function Renamed(m: Sessions, oldName: string, newName: string): (r: Sessions)
    ensures RenameApplies(m, oldName, newName) ==>
              && r.Keys == m.Keys - {oldName} + {newName}
              && r[newName] == m[oldName]
              && (newName != oldName ==> oldName !in r)
              && forall k :: k in m && k != oldName && k != newName ==> r[k] == m[k]
    ensures !RenameApplies(m, oldName, newName) ==> r == m
  {
    if RenameApplies(m, oldName, newName) then (m - {oldName})[newName := m[oldName]] else m
  }

  /** The registry after `save_turn`: exactly one turn appended to `id`, which is created empty if absent. */
  function WithTurn(m: Sessions, id: string, t: Turn): (r: Sessions)
    ensures r.Keys == m.Keys + {id}
    ensures r[id] == Lookup(m, id) + [t]
    ensures forall k :: k in m && k != id ==> r[k] == m[k]
  {
    m[id := Lookup(m, id) + [t]]
  }

  /** Renaming moves the transcript: what the returned id looks up afterwards is what the old id looked up before. */
  lemma RenameKeepsHistory(m: Sessions, oldName: string, newName: string)
    ensures Lookup(Renamed(m, oldName, newName), EffectiveId(m, oldName, newName)) == Lookup(m, oldName)
  {
  }

  /** A rename to an all-whitespace name is refused, whatever the registry holds. */
  lemma RenameToBlankIsNoOp(m: Sessions, oldName: string, newName: string)
    requires Text.IsBlank(newName)
    ensures EffectiveId(m, oldName, newName) == oldName
    ensures Renamed(m, oldName, newName) == m
  {
  }

  /** A rename to a name with a non-whitespace character, from a present id, always takes effect. */
  lemma RenameToNonBlankApplies(m: Sessions, oldName: string, newName: string)
    requires oldName in m && !Text.IsBlank(newName)
    ensures EffectiveId(m, oldName, newName) == newName
    ensures newName in Renamed(m, oldName, newName) && Renamed(m, oldName, newName)[newName] == m[oldName]
  {
  }

  /** The `SessionManager` object: it owns (or shares) the `sessions` dictionary and updates it in place. */
  class SessionManager {
    var sessions: Sessions

    /** `SessionManager(sessions_dict)`: adopt the given dictionary, or start from an empty one. */
    constructor (sessionsDict: Option<Sessions>)
      ensures sessions == sessionsDict.GetOr(map[])
    {
      if sessionsDict.Some? {
        sessions := sessionsDict.value;
      } else {
        sessions := map[];
      }
    }

    /** `create_session(name)`; `uuidHex` stands for the random `uuid4().hex`. */
    method CreateSession(name: Option<string>, uuidHex: string) returns (id: string)
      requires IsUuidHex(uuidHex)
      modifies this
      ensures id == ChosenId(name, uuidHex)
      ensures sessions == Created(old(sessions), id)
    {
      if NameGiven(name) {
        id := name.value;
      } else {
        id := SessionPrefix + uuidHex[..6];
      }
      sessions := sessions[id := []];
    }

    /** `rename_session(old_name, new_name)`. */
    method RenameSession(oldName: string, newName: string) returns (effective: string)
      modifies this
      ensures effective == EffectiveId(old(sessions), oldName, newName)
      ensures sessions == Renamed(old(sessions), oldName, newName)
    {
      if oldName in sessions && Text.Strip(newName) != "" {
        var turns := sessions[oldName];
        sessions := sessions - {oldName};
        sessions := sessions[newName := turns];
        return newName;
      }
      return oldName;
    }

    /** `save_turn(session_id, role, message)`. */
    method SaveTurn(sessionId: string, role: string, message: string)
      modifies this
      ensures sessions == WithTurn(old(sessions), sessionId, Turn(role, message))
    {
      if sessionId !in sessions {
        sessions := sessions[sessionId := []];
      }
      sessions := sessions[sessionId := sessions[sessionId] + [Turn(role, message)]];
    }

    /** `get_history(session_id)`: the stored turns, or [] for an unknown id; the registry is not touched. */
    method GetHistory(sessionId: string) returns (h: seq<Turn>)
      ensures sessionId in sessions ==> h == sessions[sessionId]
      ensures sessionId !in sessions ==> h == []
    {
      if sessionId in sessions {
        h := sessions[sessionId];
      } else {
        h := [];
      }
    }
  }
}
