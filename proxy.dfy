/**
 * What `InterpreterObject` shares between guests: a handle carries the
 * expression it was obtained by (`name`) and the text to substitute when it
 * is an operand (`code`); operators map to guest symbols; composed values
 * are bound to temporaries with a guarded assignment.
 */
module Proxy {

  import opened Syntax
  import opened Engine
  import opened Wire

  /** A proxy for a guest value. The engine it belongs to is passed alongside. */
  datatype Handle = Handle(name: string, code: string)

  /** The proxy constructors: `code` falls back to `name` when it is missing or empty. */
  function NewHandle(name: string, code: string): (h: Handle)
    ensures h.name == name
    ensures h.code == (if code == "" then name else code)
  {
    Handle(name, if code == "" then name else code)
  }

  /** `Interpreter.__getitem__`: a proxy for a guest variable, named and substituted by its name. */
  function Lookup(name: string): (h: Handle)
    ensures h.name == name && h.code == name
  {
    NewHandle(name, "")
  }

  /** An operand of a call or an operator: another proxy, or a host value already rendered as guest text. */
  datatype Operand = Proxy(handle: Handle) | Rendered(text: string)

  /** The binary operators of `InterpreterObject` (the in-place forms map to the same symbols). */
  datatype Op = Add | Sub | Mul | Div | Mod | Or | And | Lt | Le | Gt | Ge | Eq | Ne

  /** The operator-symbol table; equality and inequality use JavaScript's strict forms. */
  function OpSymbol(op: Op): string
  {
    match op
    case Add => "+"
    case Sub => "-"
    case Mul => "*"
    case Div => "/"
    case Mod => "%"
    case Or => "||"
    case And => "&&"
    case Lt => "<"
    case Le => "<="
    case Gt => ">"
    case Ge => ">="
    case Eq => "==="
    case Ne => "!=="
  }

  /** `__str__` of a proxy: `RObject[name: code]` or `DenoObject[name: code]`. */
  function ProxyStr(className: string, h: Handle): (r: string)
    ensures var n := |className| + 1;
      && |r| == n + |h.name| + |h.code| + 3
      && r[..n] == className + "[" && r[n..n + |h.name|] == h.name
      && r[|r| - |h.code| - 1..|r| - 1] == h.code && r[|r| - 1] == ']'
  {
    className + "[" + h.name + ": " + h.code + "]"
  }

  /** The text an operand contributes: a proxy its `code`, a host value its rendering. */
  function OperandText(o: Operand): string
  {
    match o
    case Proxy(h) => h.code
    case Rendered(t) => t
  }

  /** Positional arguments as guest text: each proxy by its code, each host value by its rendering. */
  function ArgTexts(args: seq<Operand>): (r: seq<string>)
    ensures |r| == |args| && forall i :: 0 <= i < |args| ==> r[i] == OperandText(args[i])
  {
    seq(|args|, i requires 0 <= i < |args| => OperandText(args[i]))
  }

  /**
   * The operator expression as `_operator` writes it: a proxy operand goes
   * through the f-string unconverted, so it contributes its `__str__`.
   */
  function OperatorExprAsWritten(className: string, h: Handle, other: Operand, op: Op): string
  {
    var o := match other
      case Proxy(p) => ProxyStr(className, p)
      case Rendered(t) => t;
    Compose(h, OpSymbol(op), o)
  }

  /** A parenthesised binary expression with the handle's code on the left. */
  function Compose(h: Handle, symbol: string, right: string): string
  {
    "(" + h.code + " " + symbol + " " + right + ")"
  }

  /** The operator expression with every proxy operand substituted by its code. */
  function OperatorExpr(h: Handle, other: Operand, op: Op): string
  {
    Compose(h, OpSymbol(op), OperandText(other))
  }

  /** The guarded assignment into a temporary that a composition sends to Deno. */
  function GuardedAssign(tmp: string, code: string): string
  {
    "try{" + tmp + " = " + code + ";}catch(er){" + tmp + "=er}"
  }

  // ---------------------------------------------------------------------
  // Properties
  // ---------------------------------------------------------------------

  /** The mapping from operators to symbols is one-to-one: no two operators are confused in the guest. */
  lemma OpSymbolInjective(a: Op, b: Op)
    ensures OpSymbol(a) == OpSymbol(b) <==> a == b
  {
  }

  /**
   * A composed expression depends on its operands only through their codes:
   * two handles with the same code are interchangeable.
   */
  lemma OperatorDependsOnlyOnCode(h: Handle, p: Handle, q: Handle, op: Op)
    requires p.code == q.code
    ensures OperatorExpr(h, Proxy(p), op) == OperatorExpr(h, Proxy(q), op)
  {
  }

  /**
   * As written, the expression depends on the operand's name: two proxies
   * with one code but names that differ yield different guest text, while
   * the expression over their code is the same.
   */
  lemma OperatorAsWrittenUsesStr(className: string, x: Handle, p: Handle, q: Handle, op: Op)
    requires p.code == q.code && p.name != q.name
    ensures OperatorExprAsWritten(className, x, Proxy(p), op) != OperatorExprAsWritten(className, x, Proxy(q), op)
    ensures OperatorExpr(x, Proxy(p), op) == OperatorExpr(x, Proxy(q), op)
  {
    var pre := "(" + x.code + " " + OpSymbol(op) + " " + className + "[";
    var post := ": " + p.code + "])";
    AsWrittenAround(className, x, p, op);
    AsWrittenAround(className, x, q, op);
    if pre + p.name + post == pre + q.name + post {
      AffixInjective(pre, p.name, q.name, post);
    }
  }

  /** The as-written text is a fixed prefix, the operand's name, and a suffix holding its code. */
  lemma AsWrittenAround(className: string, x: Handle, p: Handle, op: Op)
    ensures OperatorExprAsWritten(className, x, Proxy(p), op)
      == ("(" + x.code + " " + OpSymbol(op) + " " + className + "[") + p.name + (": " + p.code + "])")
  {
  }

  /** The as-written text for `x + y` where `y` is a `DenoObject` named `y` with code `t`. */
  lemma OperatorAsWrittenExample()
    ensures OperatorExprAsWritten("DenoObject", Handle("x", "x"), Proxy(Handle("y", "t")), Add) == "(x + DenoObject[y: t])"
    ensures OperatorExpr(Handle("x", "x"), Proxy(Handle("y", "t")), Add) == "(x + t)"
  {
  }

  /**
   * `InterpreterObject._operator`: bind the expression, as the source writes
   * it, to a fresh temporary with a guarded assignment; `className` is the
   * proxy class whose `__str__` a proxy operand goes through.
   */
  method GuardedOperator(inter: Interpreter, className: string, h: Handle, other: Operand, op: Op,
                         tmpStamp: string, keyStamp: string)
    returns (r: Handle)
    requires inter.Valid()
    modifies inter, inter.command
    ensures inter.Valid()
    ensures r == Handle(OperatorExprAsWritten(className, h, other, op), MakeTmpVariable(inter.command.guest, tmpStamp))
    ensures inter.command.written == old(inter.command.written)
      + [MakeCode(inter.command.guest, GuardedAssign(r.code, r.name)), MakeKeyPair(inter.command.guest, keyStamp).0]
    ensures inter.command.flushed == |inter.command.written|
    ensures inter.keyQ == old(inter.keyQ) + [MatchKey(inter.command.guest, keyStamp)]
    ensures inter.command.cursor == old(inter.command.cursor)
  {
    var code := OperatorExprAsWritten(className, h, other, op);
    var tmp := MakeTmpVariable(inter.command.guest, tmpStamp);
    var _ := inter.Send(GuardedAssign(tmp, code), keyStamp);
    inter.Flush();
    r := Handle(code, tmp);
  }
}
