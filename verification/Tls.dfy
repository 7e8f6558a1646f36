/**
 The TLS library as an oracle. A session is a deterministic machine, so what it does next is a
 function of what happened to it so far: the history is both its state and the log of the
 bytes it read and wrote at each encryption level.
 */
module Tls {
  import opened Wrappers
  import opened Bytes
  import opened Protection

  datatype KeyChange = HandshakeKeys(keys: Keys) | OneRttKeys(keys: Keys)

  /** `level` is the level the connection reads or writes at; TLS itself is not told it. */
  datatype Event = Read(level: Level, data: Data, ok: bool) | Write(level: Level)

  type History = seq<Event>

  datatype Oracle = Oracle(
    accepts: (History, Data) -> bool,
    output: History -> (Data, Option<KeyChange>))

  datatype Session = Session(oracle: Oracle, history: History)

  /** `read_hs`: feeds handshake bytes; says whether TLS accepted them. */
  function ReadHs(s: Session, level: Level, data: Data): (Session, bool)
  {
    var ok := s.oracle.accepts(s.history, data);
    (s.(history := s.history + [Read(level, data, ok)]), ok)
  }

  /** `write_hs`: takes handshake bytes to send, and perhaps new keys. */
  function WriteHs(s: Session, level: Level): (Session, Data, Option<KeyChange>)
  {
    var (data, keyChange) := s.oracle.output(s.history);
    (s.(history := s.history + [Write(level)]), data, keyChange)
  }

  /** The bytes TLS accepted at a level, in order. */
  function Fed(h: History, level: Level): Data
  {
    if h == [] then []
    else
      var last := h[|h| - 1];
      Fed(h[..|h| - 1], level)
      + (if last.Read? && last.level == level && last.ok then last.data else [])
  }

  /** The bytes TLS wrote at a level, in order. */
  function Written(s: Session, level: Level): Data
    decreases |s.history|
  {
    var h := s.history;
    if h == [] then []
    else
      var before := s.(history := h[..|h| - 1]);
      Written(before, level)
      + (if h[|h| - 1] == Write(level) then s.oracle.output(before.history).0 else [])
  }

  /** The key changes TLS has handed out. */
  function KeyChanges(s: Session): nat
    decreases |s.history|
  {
    var h := s.history;
    if h == [] then 0
    else
      var before := s.(history := h[..|h| - 1]);
      KeyChanges(before)
      + (if h[|h| - 1].Write? && s.oracle.output(before.history).1.Some? then 1 else 0)
  }

  /** TLS 1.3 hands out handshake keys, then 1-RTT keys, and then no more (key updates go
      another way). */
  ghost predicate HandsOutTwice(o: Oracle)
  {
    forall h: History :: o.output(h).1.Some? ==> KeyChanges(Session(o, h)) < 2
  }

  lemma AfterRead(s: Session, level: Level, data: Data)
    ensures var (t, ok) := ReadHs(s, level, data);
            && t.oracle == s.oracle && KeyChanges(t) == KeyChanges(s)
            && (forall l: Level :: Written(t, l) == Written(s, l))
            && (forall l: Level :: Fed(t.history, l)
                  == Fed(s.history, l) + (if l == level && ok then data else []))
  {
    var (t, ok) := ReadHs(s, level, data);
    assert t.history[..|t.history| - 1] == s.history;
    assert t.(history := s.history) == s;
  }

  lemma AfterWrite(s: Session, level: Level)
    ensures var (t, data, keyChange) := WriteHs(s, level);
            && t.oracle == s.oracle
            && KeyChanges(t) == KeyChanges(s) + (if keyChange.Some? then 1 else 0)
            && (forall l: Level :: Fed(t.history, l) == Fed(s.history, l))
            && (forall l: Level :: Written(t, l)
                  == Written(s, l) + (if l == level then data else []))
  {
    var (t, data, keyChange) := WriteHs(s, level);
    assert t.history[..|t.history| - 1] == s.history;
    assert t.(history := s.history) == s;
  }

  lemma {:induction false} NothingYet(o: Oracle)
    ensures KeyChanges(Session(o, [])) == 0
    ensures forall l: Level :: Written(Session(o, []), l) == [] && Fed([], l) == []
  {
  }
}
