/** The per-session transcript file of history_manager.py, with the JSON file abstracted as its decoded list of turns. */
module HistoryStore {
  import opened Common

  const HistoryDir: string := "chat_history/"
  const HistoryExt: string := ".json"

  /** The file `HistoryManager(session_id)` reads and writes. */
  function TranscriptPath(sessionId: string): (p: string)
    ensures |p| == |HistoryDir| + |sessionId| + |HistoryExt|
    ensures p[..|HistoryDir|] == HistoryDir
    ensures p[|HistoryDir|..|HistoryDir| + |sessionId|] == sessionId
    ensures p[|p| - |HistoryExt|..] == HistoryExt
  {
    HistoryDir + sessionId + HistoryExt
  }

  /** Different sessions never share a transcript path. */
  lemma TranscriptPathInjective(a: string, b: string)
    requires TranscriptPath(a) == TranscriptPath(b)
    ensures a == b
  {
  }

  class HistoryManager {
    /** `self.file_path`. */
    const filePath: string
    /** The decoded contents of `file_path`: None while the file does not exist. */
    var file: Option<seq<Turn>>

    /** Once constructed, the transcript file exists. */
    ghost predicate Valid()
      reads this
    {
      file.Some?
    }

    /** The turns stored in the file. */
    ghost function Transcript(): seq<Turn>
      reads this
      requires Valid()
    {
      file.value
    }

    /** `HistoryManager(session_id)`; `onDisk` is what `file_path` held beforehand (None: it did not exist).
        A missing file is created holding `[]`; an existing one is left as it is. */
    constructor (sessionId: string, onDisk: Option<seq<Turn>>)
      ensures filePath == TranscriptPath(sessionId)
      ensures Valid()
      ensures onDisk.None? ==> Transcript() == []
      ensures onDisk.Some? ==> Transcript() == onDisk.value
    {
      filePath := HistoryDir + sessionId + HistoryExt;
      if onDisk.None? {
        file := Some([]);
      } else {
        file := onDisk;
      }
    }

    /** `load_history()`: the stored turns; nothing changes. */
    method LoadHistory() returns (h: seq<Turn>)
      requires Valid()
      ensures h == Transcript()
    {
      h := file.value;
    }

    /** `save_turn(role, content)`: read the file, append one turn, write it back. */
    method SaveTurn(role: string, content: string)
      requires Valid()
      modifies this
      ensures Valid()
      ensures Transcript() == old(Transcript()) + [Turn(role, content)]
    {
      var history := LoadHistory();
      history := history + [Turn(role, content)];
      file := Some(history);
    }
  }

  /** A fresh session followed by one `save_turn` per element of `turns`: loading the history gives back
      exactly those turns, in call order. */
  method SaveAll(sessionId: string, turns: seq<Turn>) returns (loaded: seq<Turn>)
    ensures loaded == turns
  {
    var manager := new HistoryManager(sessionId, None);
    var i := 0;
    while i < |turns|
      invariant 0 <= i <= |turns|
      invariant manager.Valid() && manager.Transcript() == turns[..i]
    {
      manager.SaveTurn(turns[i].role, turns[i].content);
      assert turns[..i + 1] == turns[..i] + [turns[i]];
      i := i + 1;
    }
    assert turns[..i] == turns;
    loaded := manager.LoadHistory();
  }
}
