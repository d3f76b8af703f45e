/**
 * The request/response correlation engine: `Command`, the transport of one
 * guest process (its input as an append-only log, its output as a fixed
 * sequence of lines read through a cursor), and `Interpreter`, which frames
 * that unframed stream with sentinels it writes itself.
 */
module Engine {

  import opened Syntax
  import opened Wire
  import Text

  /** The fragment `DenoCommand` writes before its handshake sentinel. */
  const DenoPrelude := "let PythonObjects = {};"

  /** What an adapter's constructor writes before the handshake sentinel. */
  function Prelude(g: Guest): seq<string>
  {
    if g == Deno then [DenoPrelude] else []
  }

  /**
   * The transport of one guest process. `lines` is everything the guest
   * prints, fixed in advance; `cursor` counts the lines already read;
   * `written` logs every chunk written to the guest's input and `flushed` is
   * the length of that log at the last flush.
   */
  class Command {
    const guest: Guest
    const lines: seq<string>
    var written: seq<string>
    var flushed: nat
    var cursor: nat

    ghost predicate Valid()
      reads this
    {
      flushed <= |written| && cursor <= |lines|
    }

    /**
     * `RCommand.__init__` and `DenoCommand.__init__`: write the submission
     * sentinel (Deno first declares `PythonObjects`), flush, and read lines
     * until the match sentinel, discarding the start-up banner.
     */
    constructor (guest: Guest, lines: seq<string>, stamp: string)
      requires MatchKey(guest, stamp) in lines
      ensures Valid() && this.guest == guest && this.lines == lines
      ensures written == Prelude(guest) + [MakeKeyPair(guest, stamp).0] && flushed == |written|
      ensures cursor == MatchIndex(lines, 0, MatchKey(guest, stamp)) + 1
    {
      this.guest := guest;
      this.lines := lines;
      written := [];
      flushed := 0;
      cursor := 0;
      new;
      if guest == Deno {
        Write(DenoPrelude);
      }
      var (toSend, toGet) := MakeKeyPair(guest, stamp);
      Write(toSend);
      Flush();
      assert lines[0..] == lines;
      ghost var j := MatchIndex(lines, 0, toGet);
      while true
        invariant Valid() && cursor <= j
        invariant written == Prelude(guest) + [toSend] && flushed == |written|
        decreases j - cursor
      {
        var line := ReadLine();
        if line == toGet {
          break;
        }
      }
    }

    /** `Command.write`: append a chunk to the guest's input. */
    method Write(text: string)
      requires Valid()
      modifies this
      ensures Valid() && written == old(written) + [text]
      ensures flushed == old(flushed) && cursor == old(cursor)
    {
      written := written + [text];
    }

    /** `Command.flush`: everything written so far reaches the guest. */
    method Flush()
      requires Valid()
      modifies this
      ensures Valid() && flushed == |written|
      ensures written == old(written) && cursor == old(cursor)
    {
      flushed := |written|;
    }

    /** `Command.readline`: the next line, or the empty text at end of output. */
    method ReadLine() returns (line: string)
      requires Valid()
      modifies this
      ensures Valid() && written == old(written) && flushed == old(flushed)
      ensures old(cursor) < |lines| ==> line == lines[old(cursor)] && cursor == old(cursor) + 1
      ensures old(cursor) == |lines| ==> line == "" && cursor == old(cursor)
    {
      if cursor < |lines| {
        line := lines[cursor];
        cursor := cursor + 1;
      } else {
        line := "";
      }
    }
  }

  /**
   * `Interpreter`: `keyQ` holds the match keys of the requests not yet
   * answered, oldest first, and `qNum` counts them.
   */
  class Interpreter {
    const command: Command
    var keyQ: seq<string>
    var qNum: int

    ghost predicate Valid()
      reads this, command
    {
      command.Valid() && qNum == |keyQ|
    }

    /** The engine's channel state as a value of the protocol. */
    ghost function State(): Link
      reads this, command
    {
      Link(keyQ, command.cursor)
    }

    constructor (command: Command)
      requires command.Valid()
      ensures Valid() && this.command == command
      ensures keyQ == [] && qNum == 0
    {
      this.command := command;
      keyQ := [];
      qNum := 0;
    }

    /**
     * `send`: write the wrapped code, then the submission sentinel made from
     * `stamp`, queue the match key at the back and return it. Nothing is read.
     */
    method Send(code: string, stamp: string) returns (key: string)
      requires Valid()
      modifies this, command
      ensures Valid()
      ensures key == MatchKey(command.guest, stamp)
      ensures keyQ == old(keyQ) + [key] && qNum == old(qNum) + 1
      ensures command.written
        == old(command.written) + [MakeCode(command.guest, code), MakeKeyPair(command.guest, stamp).0]
      ensures command.cursor == old(command.cursor) && command.flushed == old(command.flushed)
    {
      qNum := qNum + 1;
      command.Write(MakeCode(command.guest, code));
      var (toSend, k) := MakeKeyPair(command.guest, stamp);
      command.Write(toSend);
      keyQ := keyQ + [k];
      key := k;
    }

    /** `flush`. */
    method Flush()
      requires Valid()
      modifies command
      ensures Valid() && command.flushed == |command.written|
      ensures command.written == old(command.written) && command.cursor == old(command.cursor)
    {
      command.Flush();
    }

    /**
     * The read loop of `receive_one`: read lines until one equals `key`,
     * keeping those `is_not_input_head` accepts. The cursor stops just past
     * the first matching line.
     */
    method ReadReply(key: string) returns (strings: seq<string>)
      requires command.Valid() && key in command.lines[command.cursor..]
      modifies command
      ensures command.Valid()
      ensures command.cursor == MatchIndex(command.lines, old(command.cursor), key) + 1
      ensures strings == Kept(command.lines[old(command.cursor)..command.cursor - 1])
      ensures command.written == old(command.written) && command.flushed == old(command.flushed)
    {
      strings := [];
      ghost var lines := command.lines;
      ghost var from := command.cursor;
      ghost var j := MatchIndex(lines, from, key);
      while true
        invariant command.Valid() && from <= command.cursor <= j
        invariant strings == Kept(lines[from..command.cursor])
        invariant command.written == old(command.written) && command.flushed == old(command.flushed)
        decreases j - command.cursor
      {
        ghost var c := command.cursor;
        var tmp := command.ReadLine();
        assert c < |lines| && tmp == lines[c] && command.cursor == c + 1;
        if tmp == key {
          MatchIndexStops(lines, from, key, c);
          break;
        }
        ghost var before := strings;
        if IsNotInputHead(tmp) {
          strings := strings + [tmp];
        }
        KeptStep(lines, from, c);
        assert strings == before + (if IsNotInputHead(lines[c]) then [lines[c]] else []);
      }
    }

    /**
     * `receive_one`: with no request pending, `("", "")` and no change;
     * otherwise pop the oldest key, read its reply and join the kept lines.
     */
    method ReceiveOne() returns (key: string, text: string)
      requires Valid() && CanReceiveOne(State(), command.lines)
      modifies this, command
      ensures Valid()
      ensures (State(), (key, text)) == Wire.ReceiveOne(old(State()), command.lines)
      ensures command.written == old(command.written) && command.flushed == old(command.flushed)
    {
      if qNum == 0 {
        return "", "";
      }
      key := keyQ[0];
      keyQ := keyQ[1..];
      var strings := ReadReply(key);
      qNum := qNum - 1;
      text := Text.Concat(strings);
    }

    /** `receive_by_key`: call `receive_one`, dropping replies, until the one keyed `requestKey`. */
    method ReceiveByKey(requestKey: string) returns (text: string)
      requires Valid() && CanReceiveByKey(State(), command.lines, requestKey)
      modifies this, command
      ensures Valid()
      ensures (State(), text) == Wire.ReceiveByKey(old(State()), command.lines, requestKey)
      ensures command.written == old(command.written) && command.flushed == old(command.flushed)
    {
      ghost var goal := Wire.ReceiveByKey(State(), command.lines, requestKey);
      while true
        invariant Valid() && CanReceiveByKey(State(), command.lines, requestKey)
        invariant Wire.ReceiveByKey(State(), command.lines, requestKey) == goal
        invariant command.written == old(command.written) && command.flushed == old(command.flushed)
        decreases |keyQ|
      {
        var key, value := ReceiveOne();
        if key == requestKey {
          return value;
        }
      }
    }

    /**
     * `get`: send, flush and wait for this request's reply. On an idle engine
     * the reply is the request's own and the engine is idle again; earlier
     * pending requests with other keys are drained.
     */
    method Get(code: string, stamp: string) returns (text: string)
      requires Valid()
      requires CanReceiveByKey(Link(keyQ + [MatchKey(command.guest, stamp)], command.cursor),
                               command.lines, MatchKey(command.guest, stamp))
      modifies this, command
      ensures Valid()
      ensures command.written
        == old(command.written) + [MakeCode(command.guest, code), MakeKeyPair(command.guest, stamp).0]
      ensures command.flushed == |command.written|
      ensures (State(), text) == Wire.ReceiveByKey(Link(old(keyQ) + [MatchKey(command.guest, stamp)],
                                                        old(command.cursor)),
                                                   command.lines, MatchKey(command.guest, stamp))
      ensures MatchKey(command.guest, stamp) !in old(keyQ) ==> keyQ == []
      ensures old(keyQ) == [] ==> text == ReplyText(command.lines, old(command.cursor), MatchKey(command.guest, stamp))
    {
      ghost var k := MatchKey(command.guest, stamp);
      ghost var before := Link(keyQ, command.cursor);
      GetDrainsEarlier(before, command.lines, k);
      if keyQ == [] {
        assert keyQ + [k] == [k];
        GetOnIdle(command.cursor, command.lines, k);
      }
      var key := Send(code, stamp);
      Flush();
      text := ReceiveByKey(key);
    }

    /**
     * `_setitem` for a host value already rendered as guest text: a blocking
     * `get` of the binding command for `__setitem__`, `let` or `const`.
     */
    method Bind(kind: DeclKind, name: string, literal: string, literalJson: string, stamp: string)
      requires Valid()
      requires CanReceiveByKey(Link(keyQ + [MatchKey(command.guest, stamp)], command.cursor),
                               command.lines, MatchKey(command.guest, stamp))
      modifies this, command
      ensures Valid()
      ensures command.written == old(command.written)
        + [MakeCode(command.guest, DeclCommand(command.guest, kind, name, literal, literalJson)),
           MakeKeyPair(command.guest, stamp).0]
      ensures command.flushed == |command.written|
      ensures State() == Wire.ReceiveByKey(Link(old(keyQ) + [MatchKey(command.guest, stamp)],
                                                old(command.cursor)),
                                           command.lines, MatchKey(command.guest, stamp)).0
      ensures old(keyQ) == [] ==> keyQ == []
    {
      var _ := Get(DeclCommand(command.guest, kind, name, literal, literalJson), stamp);
    }

    /**
     * `close`, up to the wait: send the guest's shutdown fragment and flush.
     * Its reply is never read, so its key stays pending.
     */
    method Close(stamp: string)
      requires Valid()
      modifies this, command
      ensures Valid()
      ensures command.written == old(command.written)
        + [MakeCode(command.guest, CloseFragment(command.guest)), MakeKeyPair(command.guest, stamp).0]
      ensures command.flushed == |command.written|
      ensures keyQ == old(keyQ) + [MatchKey(command.guest, stamp)]
    {
      var _ := Send(CloseFragment(command.guest), stamp);
      Flush();
    }
  }
}
