/**
 * The buffer that collects the statements of an open transaction for the log.
 * The engine keeps a full copy of its state at every savepoint; the buffer
 * keeps only a length per savepoint and truncates to it.
 */
module TxBuffer {
  import opened SqlText
  import SplitterRoundTrip
  import opened Wrappers

  // --- The buffer ---

  datatype Buffer = Buffer(statements: seq<string>, savepoints: seq<(string, nat)>)

  const EMPTY := Buffer([], [])

  // `retain` of every entry under another name.
  function Without(marks: seq<(string, nat)>, key: string): (r: seq<(string, nat)>)
    ensures forall m :: m in r ==> m in marks && m.0 != key
  {
    if marks == [] then []
    else if marks[0].0 == key then Without(marks[1..], key)
    else [marks[0]] + Without(marks[1..], key)
  }

  // The first entry under a name; the length when there is none.
  function Position(marks: seq<(string, nat)>, key: string): (p: nat)
    ensures p <= |marks| && (p < |marks| ==> marks[p].0 == key)
    ensures forall i :: 0 <= i < p ==> marks[i].0 != key
  {
    if marks == [] || marks[0].0 == key then 0 else 1 + Position(marks[1..], key)
  }

  function Mark(b: Buffer, key: string): Buffer {
    Buffer(b.statements, Without(b.savepoints, key) + [(key, |b.statements|)])
  }

  function RollBack(b: Buffer, key: string): Buffer {
    var p := Position(b.savepoints, key);
    if p == |b.savepoints| then b
    else
      var mark := b.savepoints[p].1;
      Buffer(if mark <= |b.statements| then b.statements[..mark] else b.statements, b.savepoints[..p + 1])
  }

  // --- Control statements, by their words ---

  datatype Control =
    | Begin
    | Commit
    | Rollback
    | RollbackTo(key: string)
    | Savepoint(key: string)
    | Release

  predicate Divides(c: char) { White(c) || c == ';' }

  // The words of a text, read from `i` with `cur` begun.
  function Words(sql: string, i: nat, cur: string): seq<string>
    requires i <= |sql|
    decreases |sql| - i
  {
    if i == |sql| then (if cur == "" then [] else [Lowered(cur)])
    else if Divides(sql[i]) then (if cur == "" then [] else [Lowered(cur)]) + Words(sql, i + 1, "")
    else Words(sql, i + 1, cur + [sql[i]])
  }

  function KindOf(w: seq<string>): Option<Control> {
    if w == [] then None
    else if w[0] == "begin" || w[0] == "start" then Some(Begin)
    else if w[0] == "commit" || w[0] == "end" then Some(Commit)
    else if w[0] == "savepoint" then (if |w| > 1 then Some(Savepoint(w[1])) else None)
    else if w[0] == "release" then Some(Release)
    else if w[0] == "rollback" then
      if |w| > 1 && w[1] == "to" then
        if |w| == 2 then None
        else if w[2] != "savepoint" then Some(RollbackTo(w[2]))
        else if |w| > 3 then Some(RollbackTo(w[3]))
        else None
      else Some(Rollback)
    else None
  }

  /** How the buffer classifies a statement text. */
  function Kind(sql: string): Option<Control> {
    KindOf(Words(sql, 0, ""))
  }

  // --- The session ---

  /** What an accepted statement does to the buffer; `persists` is false for reads. */
  function After(tx: Option<Buffer>, control: Option<Control>, sql: string, persists: bool): Option<Buffer> {
    match control
    case Some(Begin) => Some(EMPTY)
    case Some(Commit) => None
    case Some(Rollback) => None
    case Some(Savepoint(key)) => if tx.Some? then Some(Mark(tx.value, key)) else None
    case Some(RollbackTo(key)) => if tx.Some? then Some(RollBack(tx.value, key)) else None
    case Some(Release) => tx
    case None =>
      if tx.Some? && persists then Some(tx.value.(statements := tx.value.statements + [sql])) else tx
  }

  /**
   * The record a statement writes to the log, if it writes one: the script of a commit, or outside
   * a transaction the statement itself. `records` says that it changed something and is no read.
   */
  function Script(tx: Option<Buffer>, control: Option<Control>, sql: string, records: bool): Option<string> {
    if control == Some(Commit) && tx.Some? && tx.value.statements != []
    then Some(SplitterRoundTrip.Join(tx.value.statements))
    else if control == None && tx == None && records then Some(sql)
    else None
  }

  class Session {
    var tx: Option<Buffer>

    constructor ()
      ensures tx == None
    {
      tx := None;
    }

    /** Runs after the engine accepted `sql`. */
    method AfterOk(sql: string, modified: bool, persists: bool) returns (script: Option<string>)
      modifies this
      ensures tx == After(old(tx), Kind(sql), sql, persists)
      ensures script == Script(old(tx), Kind(sql), sql, modified && persists)
    {
      script := None;
      match Kind(sql) {
        case Some(Begin) => tx := Some(EMPTY);
        case Some(Commit) =>
          if tx.Some? && tx.value.statements != [] {
            script := Some(SplitterRoundTrip.Join(tx.value.statements));
          }
          tx := None;
        case Some(Rollback) => tx := None;
        case Some(Savepoint(key)) =>
          if tx.Some? {
            var kept := Without(tx.value.savepoints, key);
            var mark := |tx.value.statements|;
            tx := Some(Buffer(tx.value.statements, kept + [(key, mark)]));
          }
        case Some(RollbackTo(key)) =>
          if tx.Some? {
            var pos := Position(tx.value.savepoints, key);
            if pos < |tx.value.savepoints| {
              var mark := tx.value.savepoints[pos].1;
              var left := if mark <= |tx.value.statements| then tx.value.statements[..mark] else tx.value.statements;
              tx := Some(Buffer(left, tx.value.savepoints[..pos + 1]));
            }
          }
        case Some(Release) =>
        case None =>
          if tx.Some? {
            if persists {
              tx := Some(tx.value.(statements := tx.value.statements + [sql]));
            }
          } else if modified && persists {
            script := Some(sql);
          }
      }
    }
  }
}
