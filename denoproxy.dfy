/**
 * `DenoObject`: proxies for values in the Deno shell. Host values arrive
 * already rendered as JSON; calls bind their result to a temporary under a
 * guarded assignment, so a thrown error becomes the temporary's value.
 */
module DenoProxy {

  import opened Syntax
  import opened Wire
  import opened Engine
  import opened Proxy
  import Text

  /** The call expression of `DenoObject.__call__`: the callee parenthesised, keyword arguments after `, `. */
  function CallExpr(code: string, args: seq<string>, kwargs: seq<(string, string)>): (r: string)
    ensures |r| >= |code| + 4 && r[..|code| + 3] == "(" + code + ")(" && r[|r| - 1] == ')'
  {
    var a := Text.Join(args, ",");
    if kwargs == [] then "(" + code + ")(" + a + ")"
    else "(" + code + ")(" + a + ", " + Text.Join(KwargTexts(kwargs), ",") + ")"
  }

  /** The rendered keyword arguments, `key=value`. */
  function KwargTexts(kwargs: seq<(string, string)>): (r: seq<string>)
    ensures |r| == |kwargs|
  {
    seq(|kwargs|, i requires 0 <= i < |kwargs| => kwargs[i].0 + "=" + kwargs[i].1)
  }

  /**
   * Without keyword arguments the callee is recovered between the first pair
   * of parentheses, and the arguments, split at commas, are those given,
   * when none contains a comma.
   */
  lemma CallRecoverable(code: string, args: seq<string>)
    requires |args| >= 1 && forall i :: 0 <= i < |args| ==> ',' !in args[i]
    ensures var e := CallExpr(code, args, []);
      && |e| >= |code| + 4
      && e[1..|code| + 1] == code
      && e[|code| + 1..|code| + 3] == ")("
      && Text.Split(e[|code| + 3..|e| - 1], ',') == args
  {
    var a := Text.Join(args, ",");
    var e := CallExpr(code, args, []);
    assert e == "(" + code + ")(" + a + ")";
    assert e[1..|code| + 1] == code;
    assert e[|code| + 3..|e| - 1] == a;
    Text.SplitJoin(args, ',');
  }

  /**
   * `DenoObject.__call__`: bind the call to a fresh temporary under a guarded
   * assignment, send it and flush; the new handle is named by the call and
   * substitutes the temporary.
   */
  method Call(inter: Interpreter, h: Handle, args: seq<Operand>, kwargs: seq<(string, string)>,
              tmpStamp: string, keyStamp: string) returns (r: Handle)
    requires inter.Valid() && inter.command.guest == Deno
    modifies inter, inter.command
    ensures inter.Valid()
    ensures r == Handle(CallExpr(h.code, ArgTexts(args), kwargs), MakeTmpVariable(Deno, tmpStamp))
    ensures inter.command.written == old(inter.command.written)
      + [MakeCode(Deno, GuardedAssign(r.code, r.name)), MakeKeyPair(Deno, keyStamp).0]
    ensures inter.command.flushed == |inter.command.written|
    ensures inter.keyQ == old(inter.keyQ) + [MatchKey(Deno, keyStamp)]
    ensures inter.command.cursor == old(inter.command.cursor)
  {
    var code := CallExpr(h.code, ArgTexts(args), kwargs);
    var tmp := MakeTmpVariable(Deno, tmpStamp);
    var _ := inter.Send(GuardedAssign(tmp, code), keyStamp);
    inter.Flush();
    r := NewHandle(code, tmp);
  }

  /**
   * `DenoObject._operator`, corrected to substitute a proxy operand by its
   * code: the expression and a fresh temporary name; the guarded assignment
   * is not sent, so the temporary stays unbound in the guest.
   */
  function Operator(h: Handle, other: Operand, op: Op, tmpStamp: string): (r: Handle)
    ensures r.code == MakeTmpVariable(Deno, tmpStamp)
    ensures r.name == Compose(h, OpSymbol(op), OperandText(other))
  {
    NewHandle(OperatorExpr(h, other, op), MakeTmpVariable(Deno, tmpStamp))
  }

  /**
   * `DenoObject._operator` as written: a proxy operand contributes its
   * `__str__`, so the handle is the corrected one exactly on host operands.
   */
  function OperatorAsWritten(h: Handle, other: Operand, op: Op, tmpStamp: string): (r: Handle)
    ensures r.code == MakeTmpVariable(Deno, tmpStamp)
    ensures other.Proxy? ==> r.name == Compose(h, OpSymbol(op), ProxyStr("DenoObject", other.handle))
    ensures r == Operator(h, other, op, tmpStamp) <==> other.Rendered?
  {
    NewHandle(OperatorExprAsWritten("DenoObject", h, other, op), MakeTmpVariable(Deno, tmpStamp))
  }

  /** The two forms agree on host operands and differ on proxies, whose `__str__` is no JavaScript. */
  lemma OperatorAsWrittenOnHostValues(h: Handle, t: string, op: Op, tmpStamp: string)
    ensures OperatorAsWritten(h, Rendered(t), op, tmpStamp) == Operator(h, Rendered(t), op, tmpStamp)
  {
  }

  /** The member access of `DenoObject.__getitem__`: `code["key"]`. */
  function Member(code: string, key: string): (r: string)
    ensures |r| == |code| + |key| + 4 && r[..|code| + 2] == code + "[\"" && r[|r| - 2..] == "\"]"
  {
    code + "[\"" + key + "\"]"
  }

  /** `DenoObject.__getitem__`: a handle named and substituted by the member access; nothing is sent. */
  function GetItem(h: Handle, key: string): (r: Handle)
    ensures r.name == r.code == Member(h.code, key)
  {
    NewHandle(Member(h.code, key), Member(h.code, key))
  }

  /**
   * The key and the target are recovered from a member access, so distinct
   * keys of one target reach distinct members.
   */
  lemma MemberRecoverable(code: string, key: string)
    ensures var e := Member(code, key);
      && |e| == |code| + |key| + 4
      && e[..|code|] == code
      && e[|code| + 2..|e| - 2] == key
  {
    var e := Member(code, key);
    assert e == code + "[\"" + key + "\"]";
  }

  lemma {:induction false} MemberInjective(code: string, k1: string, k2: string)
    ensures Member(code, k1) == Member(code, k2) <==> k1 == k2
  {
    MemberRecoverable(code, k1);
    MemberRecoverable(code, k2);
  }

  /**
   * `let`/`const` of a Deno proxy on the engine: `_setitem` passes the
   * proxy's `.name`, which `__getattr__` turns into the member access
   * `code["name"]`, so the declaration binds that member and never the proxy
   * itself.
   */
  lemma DeclareProxyReadsName(kind: DeclKind, name: string, h: Handle)
    requires kind != Assign
    ensures var d := DenoDeclareProxy(kind, name, GetItem(h, "name").code);
      && d != DenoDeclareProxy(kind, name, h.code)
      && |d| >= 8 && d[|d| - 8..] == "[\"name\"]"
  {
    var m := GetItem(h, "name").code;
    var d := DenoDeclareProxy(kind, name, m);
    assert d[|d| - |m|..] == m;
    assert d[|d| - 8..] == m[|m| - 8..];
    MemberRecoverable(h.code, "name");
  }

  /** `DenoObject.__setitem__`: send `code["key"] = json` without flushing or waiting. */
  method SetItem(inter: Interpreter, h: Handle, key: string, json: string, stamp: string)
    requires inter.Valid() && inter.command.guest == Deno
    modifies inter, inter.command
    ensures inter.Valid()
    ensures inter.command.written == old(inter.command.written)
      + [MakeCode(Deno, Member(h.code, key) + " = " + json), MakeKeyPair(Deno, stamp).0]
    ensures inter.keyQ == old(inter.keyQ) + [MatchKey(Deno, stamp)]
    ensures inter.command.cursor == old(inter.command.cursor) && inter.command.flushed == old(inter.command.flushed)
  {
    var _ := inter.Send(Member(h.code, key) + " = " + json, stamp);
  }

  /** The statement `to_python` sends: print the value as JSON, or the error it throws. */
  function StringifyStatement(name: string): string
  {
    "try{console.log(JSON.stringify(" + name + "))}catch(e){console.log(\"JS error:\", e)}"
  }

  /**
   * `DenoObject.to_python` up to JSON decoding: send the stringify statement,
   * flush, and return the text awaited by its key.
   */
  method ToPython(inter: Interpreter, h: Handle, stamp: string) returns (text: string)
    requires inter.Valid() && inter.command.guest == Deno
    requires CanReceiveByKey(Link(inter.keyQ + [MatchKey(Deno, stamp)], inter.command.cursor),
                             inter.command.lines, MatchKey(Deno, stamp))
    modifies inter, inter.command
    ensures inter.Valid()
    ensures inter.command.written == old(inter.command.written)
      + [MakeCode(Deno, StringifyStatement(h.name)), MakeKeyPair(Deno, stamp).0]
    ensures (inter.State(), text) == Wire.ReceiveByKey(Link(old(inter.keyQ) + [MatchKey(Deno, stamp)],
                                                            old(inter.command.cursor)),
                                                       inter.command.lines, MatchKey(Deno, stamp))
    ensures old(inter.keyQ) == [] ==>
      text == ReplyText(inter.command.lines, old(inter.command.cursor), MatchKey(Deno, stamp))
  {
    text := inter.Get(StringifyStatement(h.name), stamp);
  }
}
