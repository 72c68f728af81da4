/** The command shell of shell.c: a 64-byte line buffer edited one byte
    per poll, and a lookup of the line's first word in a command table
    that ends with a null entry. */
module Shell {
  import opened Uint
  import opened CString

  /** SHELL_CMD_LEN, the size of the line buffer. */
  const SHELL_CMD_LEN: nat := 64

  const BS: Byte := 0x08
  const LF: Byte := 0x0A
  const CR: Byte := 0x0D
  const SPACE: Byte := 0x20
  const TILDE: Byte := 0x7E

  /** The prompt "sh>\r\n". */
  const PROMPT: seq<Byte> := Ascii("sh>\r\n")
  const CRLF: seq<Byte> := [CR, LF]
  /** The message for a word that names no command, spelled as in the firmware. */
  const UNKNOWN: seq<Byte> := Ascii("unkown command\r\n")

  // ---------------------------------------------------------------------
  // Words
  // ---------------------------------------------------------------------

  /** The first word of the C string s: the bytes before the first space
      or NUL. */
  function Token(s: seq<Byte>): (t: seq<Byte>)
    requires 0 in s
    ensures |t| < |s| && t == s[..|t|]
    ensures s[|t|] == SPACE || s[|t|] == 0
    ensures forall i :: 0 <= i < |t| ==> t[i] != SPACE && t[i] != 0
  {
    if s[0] == SPACE || s[0] == 0 then [] else [s[0]] + Token(s[1..])
  }

  /** shell_cmd_len: walks to the first space or NUL. */
  method CmdLen(cmd: seq<Byte>) returns (r: uint32)
    requires 0 in cmd && |cmd| < U32_LIMIT
    ensures r as nat == |Token(cmd)|
  {
    r := 0;
    while cmd[r] != SPACE && cmd[r] != 0
      invariant r as nat <= |Token(cmd)|
      decreases |Token(cmd)| - r
    {
      r := r + 1;
    }
  }

  /** shell_cmd_check: 0 when the first words have the same length and the
      same bytes, else -1. */
  method CmdCheck(cmd: seq<Byte>, str: seq<Byte>) returns (r: int)
    requires 0 in cmd && |cmd| < U32_LIMIT
    requires 0 in str && |str| < U32_LIMIT
    ensures r == 0 || r == -1
    ensures r == 0 <==> Token(cmd) == Token(str)
  {
    var len1 := CmdLen(cmd);
    var len2 := CmdLen(str);
    if len1 != len2 {
      return -1;
    }
    var i: uint32 := 0;
    while i < len1
      invariant i <= len1
      invariant cmd[..i] == str[..i]
    {
      if cmd[i] != str[i] {
        assert Token(cmd)[i] != Token(str)[i];
        return -1;
      }
      i := i + 1;
    }
    assert Token(cmd) == cmd[..i] && Token(str) == str[..i];
    return 0;
  }

  // ---------------------------------------------------------------------
  // Command table
  // ---------------------------------------------------------------------

  /** A shell_cmd_cfg row: a command with its name and help text, or the
      row with a null name that ends the table. The handler of a command
      is identified by its row. */
  datatype Entry = Command(name: seq<Byte>, help: seq<Byte>) | End

  /** A table the lookup may walk: it has an end row, and every name before
      it is a C string. */
  predicate TableOk(t: seq<Entry>) {
    && End in t
    && forall i :: 0 <= i < |t| && t[i].Command? ==> 0 in t[i].name && |t[i].name| < U32_LIMIT
  }

  /** The position of the first end row. */
  function EndIndex(t: seq<Entry>): (r: nat)
    requires End in t
    ensures r < |t| && t[r] == End
    ensures forall i :: 0 <= i < r ==> t[i].Command?
  {
    if t[0] == End then 0 else 1 + EndIndex(t[1..])
  }

  /** The first row at or after j whose name has the same first word as cmd. */
  function FirstMatchFrom(t: seq<Entry>, cmd: seq<Byte>, j: nat): (r: Option<nat>)
    requires TableOk(t) && 0 in cmd && j <= EndIndex(t)
    ensures r.Some? ==> j <= r.value < EndIndex(t) && Token(t[r.value].name) == Token(cmd)
    ensures r.Some? ==> forall k :: j <= k < r.value ==> Token(t[k].name) != Token(cmd)
    ensures r.None? ==> forall k :: j <= k < EndIndex(t) ==> Token(t[k].name) != Token(cmd)
    decreases EndIndex(t) - j
  {
    if j == EndIndex(t) then None
    else if Token(t[j].name) == Token(cmd) then Some(j)
    else FirstMatchFrom(t, cmd, j + 1)
  }

  /** A handler call: the row whose function ran and the line it was given. */
  datatype Call = Call(entry: nat, line: seq<Byte>)

  /** What shell_exec_cmdlist does to the output log and the handler calls,
      and what it returns. */
  function Dispatch(t: Option<seq<Entry>>, cmd: seq<Byte>, out: seq<Byte>, calls: seq<Call>)
    : (r: (seq<Byte>, seq<Call>, int))
    requires 0 in cmd && (t.Some? ==> TableOk(t.value))
    ensures r.2 == 0 || r.2 == -1
    ensures r.2 == 0 <==> t.Some? && exists i :: 0 <= i < EndIndex(t.value) && Token(t.value[i].name) == Token(cmd)
    ensures r.2 == 0 ==> r.0 == out && |r.1| == |calls| + 1 && r.1[..|calls|] == calls
    ensures r.2 == 0 ==> r.1[|calls|].entry < EndIndex(t.value)
    ensures r.2 == 0 ==> Token(t.value[r.1[|calls|].entry].name) == Token(cmd) && r.1[|calls|].line == cmd
    ensures r.2 == -1 ==> r.1 == calls && r.0 == out + (if t.Some? then UNKNOWN else [])
  {
    if t.None? then (out, calls, -1)
    else match FirstMatchFrom(t.value, cmd, 0)
      case Some(i) => (out, calls + [Call(i, cmd)], 0)
      case None => (out + UNKNOWN, calls, -1)
  }

  // ---------------------------------------------------------------------
  // Line editor
  // ---------------------------------------------------------------------

  /** A byte that ends the line: CR, LF, or anything outside ' '..'~',
      except backspace. */
  predicate IsTerminator(ch: Byte) {
    (ch == CR || ch == LF || ch < SPACE || ch > TILDE) && ch != BS
  }

  predicate Printable(ch: Byte) {
    SPACE <= ch <= TILDE
  }

  /** The line buffer, the index of the next free byte, and the output log. */
  datatype Editor = Editor(buf: seq<Byte>, index: nat, output: seq<Byte>)

  predicate EditorOk(e: Editor) {
    |e.buf| == SHELL_CMD_LEN && e.index < SHELL_CMD_LEN - 1
  }

  /** The bytes typed so far on the current line. */
  function Line(e: Editor): seq<Byte>
    requires EditorOk(e)
  {
    e.buf[..e.index]
  }

  predicate LinePrintable(e: Editor)
    requires EditorOk(e)
  {
    forall i :: 0 <= i < e.index ==> Printable(e.buf[i])
  }

  /** The line as the user sees it after one more key: a printable byte is
      appended, backspace drops the last byte, anything else leaves it. */
  function Edit(line: seq<Byte>, ch: Byte): seq<Byte> {
    if ch == BS then (if |line| == 0 then line else line[..|line| - 1])
    else if Printable(ch) then line + [ch]
    else line
  }

  /** The first poll prints the prompt and clears the "\r" the buffer
      starts with. */
  function Prompted(e: Editor): (r: Editor)
    requires EditorOk(e)
    ensures EditorOk(r) && r.index == e.index
  {
    if e.buf[0] == CR then e.(buf := e.buf[0 := 0], output := e.output + PROMPT) else e
  }

  /** shell_read_line after a byte ch was read: the new editor and the
      length of the line it completes (0 when none). */
  function Key(e: Editor, ch: Byte, echo: bool): (r: (Editor, nat))
    requires EditorOk(e)
    ensures EditorOk(r.0)
  {
    if IsTerminator(ch) then
      if e.index == 0 then (e.(output := e.output + PROMPT), 0)
      else (Editor(e.buf[e.index := 0], 0, e.output + CRLF), e.index)
    else if ch == BS then
      if e.index != 0 then (Editor(e.buf[e.index - 1 := 0], e.index - 1, e.output + [BS, SPACE, BS]), 0)
      else (e, 0)
    else
      var out := if echo then e.output + [ch] else e.output;
      var b := e.buf[e.index := ch];
      if e.index + 1 >= SHELL_CMD_LEN - 1 then (Editor(b[e.index + 1 := 0], 0, out + CRLF), e.index + 1)
      else (Editor(b, e.index + 1, out), 0)
  }

  /** One poll of shell_read_line: the editor, the unread input and the
      line length it returns. */
  function ReadStep(e: Editor, hasInput: bool, input: seq<Byte>, echo: bool): (r: (Editor, seq<Byte>, nat))
    requires EditorOk(e)
    ensures EditorOk(r.0)
  {
    var e0 := Prompted(e);
    if !hasInput || |input| == 0 then (e0, input, 0)
    else (Key(e0, input[0], echo).0, input[1..], Key(e0, input[0], echo).1)
  }

  /** A key edits the line as the user sees it. It completes a line exactly
      when it ends a non-empty line or fills the 63rd byte; the completed
      line is then the NUL-terminated C string at the start of the buffer,
      and the next line starts empty. */
  lemma KeyEdits(e: Editor, ch: Byte, echo: bool)
    requires EditorOk(e) && LinePrintable(e)
    ensures var r := Key(e, ch, echo);
            && LinePrintable(r.0)
            && (r.1 > 0 <==> (IsTerminator(ch) && e.index > 0) || (Printable(ch) && e.index == SHELL_CMD_LEN - 2))
            && (r.1 == 0 ==> Line(r.0) == Edit(Line(e), ch))
            && (r.1 > 0 ==> Line(r.0) == [] && 0 in r.0.buf && CLen(r.0.buf) == r.1)
            && (r.1 > 0 ==> r.0.buf[..r.1] == (if IsTerminator(ch) then Line(e) else Edit(Line(e), ch)))
  {
    var r := Key(e, ch, echo);
    if r.1 > 0 && IsTerminator(ch) {
      assert r.0.buf[..r.1] == e.buf[..e.index];
    } else if r.1 > 0 {
      assert r.0.buf[..r.1] == e.buf[..e.index] + [ch];
    }
    if r.1 > 0 {
      assert r.0.buf[r.1] == 0;
      assert forall i :: 0 <= i < r.1 ==> Printable(r.0.buf[i]);
      assert forall i :: 0 <= i < r.1 ==> r.0.buf[i] != 0;
    } else if ch == BS && e.index != 0 {
      assert Line(r.0) == Line(e)[..e.index - 1];
    }
  }

  /** The prompt step leaves the typed line alone. */
  lemma PromptedKeepsLine(e: Editor)
    requires EditorOk(e) && LinePrintable(e)
    ensures LinePrintable(Prompted(e)) && Line(Prompted(e)) == Line(e)
  {
  }

  /** A poll with no byte to read completes no line and keeps the typed
      line, the index and the unread input; only the first poll's prompt
      shows. */
  lemma ReadStepIdle(e: Editor, hasInput: bool, input: seq<Byte>, echo: bool)
    requires EditorOk(e) && LinePrintable(e)
    requires !hasInput || |input| == 0
    ensures var r := ReadStep(e, hasInput, input, echo);
            && r.2 == 0 && r.1 == input && r.0.index == e.index && Line(r.0) == Line(e)
            && (e.buf[0] != CR ==> r.0 == e)
  {
    PromptedKeepsLine(e);
  }

  // ---------------------------------------------------------------------
  // The shell's state
  // ---------------------------------------------------------------------

  /** The module-level state of shell.c: the line buffer and its index,
      the interfaces given to shell_set_itf (the input as the bytes still
      to come, the output as a log, the command table), the echo flag, and
      the handler calls made so far. */
  class Shell {
    const buf: array<Byte>
    var index: uint32
    var hasInput: bool
    var input: seq<Byte>
    var output: seq<Byte>
    var echo: bool
    var table: Option<seq<Entry>>
    var calls: seq<Call>

    ghost predicate Valid()
      reads this, buf
    {
      && buf.Length == SHELL_CMD_LEN && index < SHELL_CMD_LEN - 1
      && LinePrintable(Editor(buf[..], index, output))
    }

    function Current(): Editor
      reads this, buf
    {
      Editor(buf[..], index, output)
    }

    /** The buffer as initialised ("\r" then zeros) and the interfaces as
        shell_set_itf binds them. */
    constructor(hasInput0: bool, input0: seq<Byte>, table0: Option<seq<Entry>>, echo0: bool)
      ensures Valid() && index == 0 && buf[..] == [CR] + seq(SHELL_CMD_LEN - 1, _ => 0)
      ensures hasInput == hasInput0 && input == input0 && table == table0 && echo == echo0
      ensures output == [] && calls == []
    {
      buf := new Byte[SHELL_CMD_LEN](i => if i == 0 then CR else 0);
      index := 0;
      hasInput, input, table, echo := hasInput0, input0, table0, echo0;
      output, calls := [], [];
    }

    /** shell_read_line: one non-blocking poll of the line editor. */
    method ReadLine() returns (count: uint32)
      requires Valid()
      modifies this, buf
      ensures Valid()
      ensures var r := ReadStep(old(Current()), hasInput, old(input), echo);
              Current() == r.0 && input == r.1 && count as nat == r.2
      ensures hasInput == old(hasInput) && echo == old(echo) && table == old(table) && calls == old(calls)
    {
      ghost var e := Current();
      PromptedKeepsLine(e);
      if buf[0] == CR {
        output := output + PROMPT;
        buf[0] := 0;
      }
      assert Current() == Prompted(e);
      if !hasInput || |input| == 0 {
        return 0;
      }
      var ch := input[0];
      input := input[1..];
      KeyEdits(Prompted(e), ch, echo);
      count := HandleKey(ch);
    }

    /** The part of shell_read_line after a byte was read. */
    method HandleKey(ch: Byte) returns (count: uint32)
      requires buf.Length == SHELL_CMD_LEN && index < SHELL_CMD_LEN - 1
      modifies this, buf
      ensures Current() == Key(old(Current()), ch, echo).0 && count as nat == Key(old(Current()), ch, echo).1
      ensures input == old(input) && hasInput == old(hasInput) && echo == old(echo)
      ensures table == old(table) && calls == old(calls)
    {
      if (ch == CR || ch == LF || ch < SPACE || ch > TILDE) && ch != BS {
        if index == 0 {
          output := output + PROMPT;
        } else {
          count := EndLine();
          return;
        }
      } else {
        if ch == BS {
          if index != 0 {
            index := index - 1;
            output := output + [BS, SPACE, BS];
            buf[index] := 0;
          }
        } else {
          if echo {
            output := output + [ch];
          }
          buf[index] := ch;
          index := index + 1;
          if index as nat >= SHELL_CMD_LEN - 1 {
            count := EndLine();
            return;
          }
        }
      }
      return 0;
    }

    /** Completes the line: NUL after it, index back to 0, CR LF out. */
    method EndLine() returns (count: uint32)
      requires buf.Length == SHELL_CMD_LEN && 0 < index < SHELL_CMD_LEN
      modifies this, buf
      ensures count == old(index) && index == 0
      ensures buf[..] == old(buf[..])[old(index) := 0] && output == old(output) + CRLF
      ensures input == old(input) && hasInput == old(hasInput) && echo == old(echo)
      ensures table == old(table) && calls == old(calls)
    {
      count := index;
      buf[index] := 0;
      index := 0;
      output := output + CRLF;
    }

    /** shell_exec_cmdlist: runs the handler of the first row whose name has
        the same first word as cmd and returns 0; prints the unknown-command
        message and returns -1 when no row matches, and returns -1 at once
        when no table is bound. */
    method ExecCmdList(cmd: seq<Byte>) returns (r: int)
      requires 0 in cmd && |cmd| < U32_LIMIT
      requires table.Some? ==> TableOk(table.value)
      modifies this
      ensures index == old(index) && input == old(input) && hasInput == old(hasInput)
      ensures echo == old(echo) && table == old(table)
      ensures (output, calls, r) == Dispatch(table, cmd, old(output), old(calls))
      ensures r == 0 ==> calls[|calls| - 1].entry == FirstMatchFrom(table.value, cmd, 0).value
    {
      if table.None? {
        return -1;
      }
      var t := table.value;
      var i: nat := 0;
      while t[i].Command?
        invariant unchanged(this)
        invariant i <= EndIndex(t)
        invariant FirstMatchFrom(t, cmd, i) == FirstMatchFrom(t, cmd, 0)
        decreases EndIndex(t) - i
      {
        var c := CmdCheck(cmd, t[i].name);
        if c == 0 {
          assert FirstMatchFrom(t, cmd, i) == Some(i);
          calls := calls + [Call(i, cmd)];
          return 0;
        }
        i := i + 1;
      }
      output := output + UNKNOWN;
      return -1;
    }

    /** shell_exec: one poll; a completed line is looked up and run. */
    method Exec()
      requires Valid() && (table.Some? ==> TableOk(table.value))
      modifies this, buf
      ensures Valid()
      ensures hasInput == old(hasInput) && echo == old(echo) && table == old(table)
      ensures var s := ReadStep(old(Current()), hasInput, old(input), echo);
              && buf[..] == s.0.buf && index as nat == s.0.index && input == s.1
              && (s.2 == 0 ==> output == s.0.output && calls == old(calls))
              && (s.2 > 0 ==> (0 in s.0.buf &&
                                 (output, calls) == (Dispatch(table, s.0.buf, s.0.output, old(calls)).0,
                                                     Dispatch(table, s.0.buf, s.0.output, old(calls)).1)))
    {
      ghost var e := Current();
      var n := ReadLine();
      if n > 0 {
        KeyEdits(Prompted(e), old(input)[0], echo);
        var _ := ExecCmdList(buf[..]);
      }
    }
  }
}
