/**
 * The older top-level copy of the package. Its engine, transport and
 * proxies are the ones modelled in `Engine`, `RProxy` and `DenoProxy`; it
 * differs in how `let` and `const` build their commands.
 */
module Legacy {

  import opened Syntax
  import opened Wire
  import opened Engine

  /**
   * The older `make_let` and `make_const`: Deno declares the JSON-parsed
   * value and ends the statement itself; R does not override them and
   * inherits the base default, the empty command.
   */
  function Declaration(g: Guest, kind: DeclKind, name: string, json: string): (r: string)
    requires kind != Assign
    ensures g == R ==> r == ""
    ensures g == Deno ==> var head := DeclHead(Deno, kind);
      && |r| == |head| + |name| + |json| + 16
      && r[..|head|] == head && r[|head|..|head| + |name|] == name
      && r[|r| - |json| - 2..|r| - 2] == json && r[|r| - 1] == ';'
  {
    match g
    case R => ""
    case Deno => (if kind == Let then "let " else "const ") + name + " = JSON.parse(" + json + ");"
  }

  /** For Deno the older declaration is the newer one with its own terminating semicolon. */
  lemma DenoDeclarationEndsStatement(kind: DeclKind, name: string, literal: string, json: string)
    requires kind != Assign
    ensures Declaration(Deno, kind, name, json) == DeclCommand(Deno, kind, name, literal, json) + ";"
  {
  }

  /** For R the older `let` and `const` submit the empty `try()`, which binds nothing. */
  lemma RDeclarationIsEmpty(kind: DeclKind, name: string, json: string)
    requires kind != Assign
    ensures MakeCode(R, Declaration(R, kind, name, json)) == "try()\n"
  {
  }

  /** The older `Interpreter.let` and `Interpreter.const`: a blocking round trip of the declaration. */
  method Declare(inter: Interpreter, kind: DeclKind, name: string, json: string, stamp: string)
    requires inter.Valid() && kind != Assign
    requires CanReceiveByKey(Link(inter.keyQ + [MatchKey(inter.command.guest, stamp)], inter.command.cursor),
                             inter.command.lines, MatchKey(inter.command.guest, stamp))
    modifies inter, inter.command
    ensures inter.Valid()
    ensures inter.command.written == old(inter.command.written)
      + [MakeCode(inter.command.guest, Declaration(inter.command.guest, kind, name, json)),
         MakeKeyPair(inter.command.guest, stamp).0]
    ensures inter.command.flushed == |inter.command.written|
    ensures inter.State() == Wire.ReceiveByKey(Link(old(inter.keyQ) + [MatchKey(inter.command.guest, stamp)],
                                                    old(inter.command.cursor)),
                                               inter.command.lines, MatchKey(inter.command.guest, stamp)).0
    ensures old(inter.keyQ) == [] ==> inter.keyQ == []
  {
    var _ := inter.Get(Declaration(inter.command.guest, kind, name, json), stamp);
  }
}
