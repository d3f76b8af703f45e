/**
 * The guest-specific text the engine writes: sentinel pairs, code wrapping,
 * temporary names, declaration syntax, shutdown fragments and the text of an
 * interpreter exception. Each guest is one constructor of `Guest`; the two
 * adapters `RCommand` and `DenoCommand` override the defaults of `Command`.
 */
module Syntax {

  import opened Text

  /** The two guest adapters: the R shell and the Deno (JavaScript) shell. */
  datatype Guest = R | Deno

  /** `Command.make_stamp`: the uniqueness token embedded in a sentinel. */
  function MakeStamp(t: string): string
  {
    "Python code: Time[" + t + "]"
  }

  /** `make_code`: R wraps the fragment in `try(...)` and ends the line; Deno ends the statement. */
  function MakeCode(g: Guest, code: string): (r: string)
    ensures g == R ==> |r| == |code| + 6 && r[4..|code| + 4] == code && r[|r| - 1] == '\n'
    ensures g == Deno ==> |r| == |code| + 1 && r[..|code|] == code && r[|code|] == ';'
  {
    match g
    case R => "try(" + code + ")\n"
    case Deno => code + ";"
  }

  /**
   * `make_key_pair`: the submission fragment written to the guest and the
   * match line the engine waits for. R prints the quoted stamp behind its
   * `[1] ` index; Deno echoes the string expression itself.
   */
  function MakeKeyPair(g: Guest, t: string): (r: (string, string))
    ensures var s := MakeStamp(t);
      && |r.1| >= |s| + 2 && r.1[|r.1| - |s| - 2..|r.1| - 2] == s && r.1[|r.1| - 1] == '\n'
      && |r.0| >= |s| + 2 && r.0[|r.0| - 1] == '\n'
    ensures g == Deno ==> r.0 == r.1
  {
    var s := MakeStamp(t);
    match g
    case R => ("print(\"" + s + "\")\n", "[1] \"" + s + "\"\n")
    case Deno => ("\"" + s + "\"\n", "\"" + s + "\"\n")
  }

  /** The match line alone. */
  function MatchKey(g: Guest, t: string): string
  {
    MakeKeyPair(g, t).1
  }

  /**
   * `make_tmp_variable`: R keeps the default of `Command`, Deno stores its
   * temporaries as properties of the `PythonObjects` object made at start-up.
   */
  function MakeTmpVariable(g: Guest, t: string): (r: string)
    ensures |r| > |t| && r[|r| - |t|..] == t
    ensures g == R ==> r[..|r| - |t|] == "Python_tmp_object_"
    ensures g == Deno ==> r[..|r| - |t|] == "PythonObjects.py"
  {
    match g
    case R => "Python_tmp_object_" + t
    case Deno => "PythonObjects.py" + t
  }

  /** `is_not_input_head`: a line read back is kept unless it is empty or starts with the prompt `>`. */
  predicate IsNotInputHead(line: string)
    ensures IsNotInputHead(line) <==> line != "" && !(">" <= line)
  {
    |line| != 0 && line[0] != '>'
  }

  /** The three ways `Interpreter` binds a name: `__setitem__`, `let` and `const`. */
  datatype DeclKind = Assign | Let | Const

  /**
   * `make_send_command`, `make_let_command` and `make_const_command` applied
   * to a value already rendered as guest text (`literal`). R has no
   * declaration forms and uses `class(name <- value)` for all three. Deno's
   * `let` and `const` forms re-encode that text with `json.dumps` and parse it
   * in the guest; JSON encoding is not modelled, so the caller supplies that
   * encoding as `literalJson`. Each command is a head, the name, a binder,
   * the value and one closing character.
   */
  function DeclCommand(g: Guest, kind: DeclKind, name: string, literal: string, literalJson: string): (r: string)
    ensures var head := DeclHead(g, kind);
      |r| >= |head| + |name| && r[..|head|] == head && r[|head|..|head| + |name|] == name
    ensures var v := if g == Deno && kind != Assign then literalJson else literal;
      |r| > |v| && r[|r| - |v| - 1..|r| - 1] == v
  {
    var head := DeclHead(g, kind);
    var (binder, v, close) := match (g, kind)
      case (R, _) => (" <- ", literal, ")")
      case (Deno, Assign) => (" = ", literal, ";")
      case (Deno, _) => (" = JSON.parse(", literalJson, ")");
    Framed(head, name, binder, v, close);
    head + name + binder + v + close
  }

  /** Where the name and the value sit in a binding command built from five pieces. */
  lemma Framed(head: string, name: string, binder: string, v: string, close: string)
    requires |close| == 1
    ensures var r := head + name + binder + v + close;
      && |r| >= |head| + |name| && r[..|head|] == head && r[|head|..|head| + |name|] == name
      && |r| > |v| && r[|r| - |v| - 1..|r| - 1] == v
  {
    var r := head + name + binder + v + close;
    assert r == head + name + (binder + v + close);
    assert r[|r| - |v| - 1..|r| - 1] == (head + name + binder + v)[|r| - |v| - 1..];
  }

  /** The text before the bound name: `class(` for R, the keyword of a Deno declaration, or nothing. */
  function DeclHead(g: Guest, kind: DeclKind): string
  {
    match (g, kind)
    case (R, _) => "class("
    case (Deno, Assign) => ""
    case (Deno, Let) => "let "
    case (Deno, Const) => "const "
  }

  /**
   * `make_let_command`/`make_const_command` of Deno applied directly to a
   * proxy: the proxy's code is bound verbatim, where a host value is bound
   * through `JSON.parse`.
   */
  function DenoDeclareProxy(kind: DeclKind, name: string, code: string): (r: string)
    requires kind != Assign
    ensures var head := DeclHead(Deno, kind);
      |r| == |head| + |name| + 3 + |code| && r[..|head|] == head && r[|head|..|head| + |name|] == name
      && r[|r| - |code|..] == code
  {
    (if kind == Let then "let " else "const ") + name + " = " + code
  }

  /** The argument of the guest's shutdown call: `RCommand.close` and `DenoCommand.close`. */
  function CloseCall(g: Guest): string
  {
    match g
    case R => "q(\"yes\")"
    case Deno => "close()"
  }

  /** The fragment `Interpreter.close` sends before waiting for the process to exit. */
  function CloseFragment(g: Guest): string
  {
    ";" + CloseCall(g) + ";\n"
  }

  /** The continuation indent of `InterpreterException.__str__`: four spaces. */
  const Indent := "    "

  /** Every line after the first gains the indent `ind`. */
  function IndentTail(lines: seq<string>, ind: string): (r: seq<string>)
    ensures |r| == |lines|
    ensures forall i :: 0 <= i < |lines| ==> r[i] == if i == 0 then lines[0] else ind + lines[i]
  {
    if lines == [] then [] else [lines[0]] + seq(|lines| - 1, i requires 0 <= i < |lines| - 1 => ind + lines[i + 1])
  }

  const ExceptionHeader := "Interpreter-Exception: "

  /**
   * `InterpreterException.__str__`: the joined arguments, each continuation
   * line indented. The text opens with two empty lines and the header, and
   * arguments that make one line follow the header unchanged.
   */
  function ExceptionText(args: seq<string>): (r: string)
    ensures |r| >= 2 + |ExceptionHeader| && r[..2 + |ExceptionHeader|] == "\n\n" + ExceptionHeader
    ensures '\n' !in Concat(args) ==> r == "\n\n" + ExceptionHeader + Concat(args)
  {
    SingleLine(Concat(args));
    "\n\n" + ExceptionHeader + Join(Split(Concat(args), '\n'), "\n" + Indent)
  }

  /** A text without line breaks splits into itself alone. */
  lemma SingleLine(t: string)
    ensures '\n' !in t ==> Split(t, '\n') == [t]
  {
    if '\n' !in t {
      SplitJoin([t], '\n');
    }
  }

  // ---------------------------------------------------------------------
  // Properties
  // ---------------------------------------------------------------------

  lemma {:induction false} AffixInjective(p: string, a: string, b: string, q: string)
    requires p + a + q == p + b + q
    ensures a == b
  {
    var x := p + a + q;
    assert |a| == |b|;
    assert a == x[|p|..|p| + |a|];
    assert b == (p + b + q)[|p|..|p| + |b|];
  }

  /** Distinct stamps give distinct match lines, for both guests: the sentinel is as unique as its stamp. */
  lemma MatchKeyInjective(g: Guest, t1: string, t2: string)
    ensures MatchKey(g, t1) == MatchKey(g, t2) <==> t1 == t2
  {
    if MatchKey(g, t1) == MatchKey(g, t2) {
      var p := if g == R then "[1] \"" else "\"";
      AffixInjective(p, MakeStamp(t1), MakeStamp(t2), "\"\n");
      AffixInjective("Python code: Time[", t1, t2, "]");
    }
  }

  /** Distinct stamps give distinct temporaries. */
  lemma TmpVariableInjective(g: Guest, t1: string, t2: string)
    ensures MakeTmpVariable(g, t1) == MakeTmpVariable(g, t2) <==> t1 == t2
  {
    if MakeTmpVariable(g, t1) == MakeTmpVariable(g, t2) {
      var p := if g == R then "Python_tmp_object_" else "PythonObjects.py";
      AffixInjective(p, t1, t2, "");
    }
  }

  /**
   * For a stamp without a line break the match text is exactly one line as
   * `readline` returns it (ending in its only newline), and such a line is
   * never dropped as a prompt echo; for Deno it is the submission itself.
   */
  lemma MatchKeyIsOneLine(g: Guest, t: string)
    requires '\n' !in t
    ensures var k := MatchKey(g, t); k != "" && k[|k| - 1] == '\n' && '\n' !in k[..|k| - 1]
    ensures IsNotInputHead(MatchKey(g, t))
    ensures g == Deno ==> MakeKeyPair(g, t).0 == MakeKeyPair(g, t).1
  {
    var s := MakeStamp(t);
    assert '\n' !in s;
    var p := if g == R then "[1] \"" else "\"";
    var k := MatchKey(g, t);
    assert k == p + s + "\"\n";
    assert k[..|k| - 1] == p + s + "\"";
    assert k[0] == p[0];
  }

  /** The guest runs exactly the fragment it is given: wrapping is one-to-one. */
  lemma MakeCodeInjective(g: Guest, a: string, b: string)
    ensures MakeCode(g, a) == MakeCode(g, b) <==> a == b
  {
    if MakeCode(g, a) == MakeCode(g, b) {
      if g == R {
        assert a == MakeCode(g, a)[4..|a| + 4];
      } else {
        assert a == MakeCode(g, a)[..|a|];
      }
    }
  }

  /**
   * A Deno declaration of a host value is the proxy declaration whose code
   * is the `JSON.parse` call on the value's JSON text.
   */
  lemma DenoDeclareHostIsParse(kind: DeclKind, name: string, literal: string, json: string)
    requires kind != Assign
    ensures DeclCommand(Deno, kind, name, literal, json) == DenoDeclareProxy(kind, name, "JSON.parse(" + json + ")")
  {
    var head := if kind == Let then "let " else "const ";
    RegroupParse(head, name, " = JSON.parse(", json, ")");
  }

  lemma RegroupParse(a: string, b: string, c: string, d: string, e: string)
    requires c == " = JSON.parse("
    ensures a + b + c + d + e == a + b + " = " + ("JSON.parse(" + d + e)
  {
  }

  /** The R adapter's three binding forms coincide: R has no `let` or `const`. */
  lemma RDeclarationsCoincide(name: string, literal: string, json: string)
    ensures DeclCommand(R, Let, name, literal, json) == DeclCommand(R, Assign, name, literal, json)
    ensures DeclCommand(R, Const, name, literal, json) == DeclCommand(R, Assign, name, literal, json)
    ensures DeclCommand(R, Assign, name, literal, json) == "class(" + name + " <- " + literal + ")"
  {
  }

  /** Joining with a separator that ends in an indent is joining the indented lines. */
  lemma {:induction false} JoinIndent(parts: seq<string>, nl: string, ind: string)
    requires |parts| >= 1
    ensures Join(parts, nl + ind) == Join(IndentTail(parts, ind), nl)
  {
    if |parts| > 1 {
      JoinIndent(parts[1..], nl, ind);
      JoinIndentStep(parts, nl, ind);
    }
  }

  /** One line more: the claim for `parts` follows from the claim for its tail. */
  lemma JoinIndentStep(parts: seq<string>, nl: string, ind: string)
    requires |parts| > 1
    requires Join(parts[1..], nl + ind) == Join(IndentTail(parts[1..], ind), nl)
    ensures Join(parts, nl + ind) == Join(IndentTail(parts, ind), nl)
  {
    var p := parts[0];
    var rest := IndentTail(parts[1..], ind);
    var x := JoinTail(rest, nl);
    assert Join(parts, nl + ind) == p + (nl + ind) + (rest[0] + x) by {
      assert Join(parts, nl + ind) == p + (nl + ind) + Join(rest, nl);
      JoinHeadTail(rest, nl);
    }
    JoinIndented(parts, nl, ind);
    Regroup(p, nl, ind, rest[0], x);
  }

  /** The indented lines joined: the first line, then the indented second line and the rest. */
  lemma JoinIndented(parts: seq<string>, nl: string, ind: string)
    requires |parts| > 1
    ensures var rest := IndentTail(parts[1..], ind);
      Join(IndentTail(parts, ind), nl) == parts[0] + nl + (ind + rest[0] + JoinTail(rest, nl))
  {
    var rest := IndentTail(parts[1..], ind);
    var t := IndentTail(parts, ind);
    assert Join(t, nl) == parts[0] + nl + Join(t[1..], nl);
    IndentTailShift(parts, ind);
    ReplaceHead(ind + rest[0], rest, nl);
  }

  /** Past its first line, the indented sequence is the indented tail with its own first line indented too. */
  lemma IndentTailShift(parts: seq<string>, ind: string)
    requires |parts| > 1
    ensures var rest := IndentTail(parts[1..], ind);
      IndentTail(parts, ind)[0] == parts[0] && IndentTail(parts, ind)[1..] == [ind + rest[0]] + rest[1..]
  {
    var rest := IndentTail(parts[1..], ind);
    var t := IndentTail(parts, ind);
    var u := [ind + rest[0]] + rest[1..];
    assert |t[1..]| == |u|;
    forall i | 0 <= i < |u| ensures t[1..][i] == u[i] {
      assert t[1..][i] == ind + parts[i + 1];
      if i > 0 {
        assert u[i] == rest[i] == ind + parts[1..][i];
      }
    }
  }

  lemma Regroup(p: string, nl: string, ind: string, r: string, x: string)
    ensures p + (nl + ind) + (r + x) == p + nl + (ind + r + x)
  {
  }

  /** The text that follows the first piece of a join. */
  function JoinTail(parts: seq<string>, nl: string): string
    requires |parts| >= 1
  {
    if |parts| == 1 then "" else nl + Join(parts[1..], nl)
  }

  lemma JoinFront(x: string, rest: seq<string>, nl: string)
    requires |rest| >= 1
    ensures Join([x] + rest, nl) == x + nl + Join(rest, nl)
  {
    assert ([x] + rest)[1..] == rest;
  }

  /** The lines of the exception text before it is split again. */
  function ExceptionLayout(lines: seq<string>): seq<string>
    requires |lines| >= 1
  {
    Layout(lines, Indent, ExceptionHeader)
  }

  /** Two empty lines, the header before the first line, the other lines indented by `ind`. */
  function Layout(lines: seq<string>, ind: string, hd: string): seq<string>
    requires |lines| >= 1
  {
    [""] + ([""] + ([hd + lines[0]] + IndentTail(lines, ind)[1..]))
  }

  lemma JoinHeadTail(parts: seq<string>, nl: string)
    requires |parts| >= 1
    ensures Join(parts, nl) == parts[0] + JoinTail(parts, nl)
  {
    if |parts| > 1 {
      Assoc(parts[0], nl, Join(parts[1..], nl));
    }
  }

  lemma ReplaceHead(h: string, t: seq<string>, nl: string)
    requires |t| >= 1
    ensures Join([h] + t[1..], nl) == h + JoinTail(t, nl)
  {
    var body := [h] + t[1..];
    assert body[1..] == t[1..];
    JoinHeadTail(body, nl);
  }

  lemma Assoc(a: string, b: string, c: string)
    ensures a + (b + c) == a + b + c
  {
  }

  /** The layout identity with its header, line break and indent left open. */
  lemma LayoutJoinWith(lines: seq<string>, nl: string, ind: string, hd: string)
    requires |lines| >= 1
    ensures nl + nl + hd + Join(lines, nl + ind) == Join(Layout(lines, ind, hd), nl)
  {
    var t := IndentTail(lines, ind);
    var h := hd + lines[0];
    var body := [h] + t[1..];
    var tail := JoinTail(t, nl);
    var e := "";
    JoinIndent(lines, nl, ind);
    JoinHeadTail(t, nl);
    ReplaceHead(h, t, nl);
    JoinFront(e, body, nl);
    JoinFront(e, [e] + body, nl);
    assert e + nl == nl;
    Assoc(nl, nl, h + tail);
    Assoc(nl + nl, hd, lines[0] + tail);
    Assoc(hd, lines[0], tail);
  }

  lemma LayoutJoin(lines: seq<string>)
    requires |lines| >= 1
    ensures "\n\n" + ExceptionHeader + Join(lines, "\n" + Indent) == Join(ExceptionLayout(lines), "\n")
  {
    TwoBreaks();
    LayoutJoinWith(lines, "\n", Indent, ExceptionHeader);
  }

  /** Two line breaks in a row, as one literal. */
  lemma TwoBreaks()
    ensures "\n" + "\n" == "\n\n"
  {
  }

  lemma ExceptionTextIsJoin(args: seq<string>)
    ensures ExceptionText(args) == Join(ExceptionLayout(Split(Concat(args), '\n')), "\n")
  {
    LayoutJoin(Split(Concat(args), '\n'));
  }

  /**
   * The exception text is two empty lines, then the header line carrying the
   * first line of the joined arguments, then every further line of the
   * arguments indented by four spaces.
   */
  lemma ExceptionLines(args: seq<string>)
    ensures var lines := Split(Concat(args), '\n');
      Split(ExceptionText(args), '\n') == ExceptionLayout(lines)
  {
    var lines := Split(Concat(args), '\n');
    ExceptionTextIsJoin(args);
    HeaderIsOneLine();
    LayoutSplits(lines, Indent, ExceptionHeader);
  }

  lemma HeaderIsOneLine()
    ensures '\n' !in Indent && '\n' !in ExceptionHeader
  {
  }

  /** Laid out lines joined by line breaks split back into the same lines. */
  lemma LayoutSplits(lines: seq<string>, ind: string, hd: string)
    requires |lines| >= 1 && forall i :: 0 <= i < |lines| ==> '\n' !in lines[i]
    requires '\n' !in ind && '\n' !in hd
    ensures Split(Join(Layout(lines, ind, hd), "\n"), '\n') == Layout(lines, ind, hd)
  {
    LayoutHasNoBreak(lines, ind, hd);
    SplitJoin(Layout(lines, ind, hd), '\n');
    assert ['\n'] == "\n";
  }

  /** Laid out lines stay single lines when the pieces, the indent and the header hold no line break. */
  lemma LayoutHasNoBreak(lines: seq<string>, ind: string, hd: string)
    requires |lines| >= 1 && forall i :: 0 <= i < |lines| ==> '\n' !in lines[i]
    requires '\n' !in ind && '\n' !in hd
    ensures forall i :: 0 <= i < |Layout(lines, ind, hd)| ==> '\n' !in Layout(lines, ind, hd)[i]
  {
    var out := Layout(lines, ind, hd);
    assert '\n' !in hd + lines[0];
    forall i | 0 <= i < |out| ensures '\n' !in out[i] {
      if i >= 3 {
        assert out[i] == ind + lines[i - 2];
      }
    }
  }
}
