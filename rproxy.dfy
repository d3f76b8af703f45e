/**
 * `RObject`: proxies for values in the R shell. Host values become R
 * literals, calls and index expressions are composed as R text, and
 * `to_python` asks four pipelined diagnostic questions before it decides
 * how to decode a value or raises the guest's error.
 */
module RProxy {

  import opened Wrappers
  import opened Text
  import opened Syntax
  import opened Wire
  import opened Engine
  import opened Proxy

  /** `inter_indent`: the width of the `[1] ` index R prints before a vector. */
  const IndexWidth := 4

  /**
   * The host values `_convert_to_interpreter` renders. Booleans are their own
   * case, as the source tests them before numbers; a float arrives as the
   * text `str()` gives it; anything unsupported renders as the empty text.
   */
  datatype HostValue = Str(s: string) | Bool(b: bool) | Int(i: int) | Float(repr: string) | Unsupported

  /** `_convert_to_interpreter` as written: a string is quoted without escaping. */
  function LiteralAsWritten(v: HostValue): (r: string)
    ensures v.Str? ==> |r| == |v.s| + 2 && r[0] == r[|r| - 1] == '"' && r[1..|r| - 1] == v.s
    ensures v.Bool? ==> r == (if v.b then "TRUE" else "FALSE")
    ensures v.Int? ==> ParseInt(r) == v.i
  {
    IntToStringRoundTrip(if v.Int? then v.i else 0);
    match v
    case Str(s) => "\"" + s + "\""
    case Bool(b) => if b then "TRUE" else "FALSE"
    case Int(i) => IntToString(i)
    case Float(repr) => repr
    case Unsupported => ""
  }

  /** Backslash-escapes the two characters that end or escape an R string. */
  function Escape(s: string): (r: string)
    ensures ('"' !in s && '\\' !in s) ==> r == s
  {
    if s == [] then ""
    else (if s[0] == '"' || s[0] == '\\' then ['\\', s[0]] else [s[0]]) + Escape(s[1..])
  }

  /** `_convert_to_interpreter` with the string case escaped, so that R reads back the host string. */
  function Literal(v: HostValue): (r: string)
    ensures v.Str? ==> |r| == |Escape(v.s)| + 2 && r[0] == r[|r| - 1] == '"' && r[1..|r| - 1] == Escape(v.s)
    ensures !v.Str? ==> r == LiteralAsWritten(v)
  {
    match v
    case Str(s) => "\"" + Escape(s) + "\""
    case _ => LiteralAsWritten(v)
  }

  /** The character an R escape sequence `\c` stands for, or `None` where R rejects it. */
  function Unescape(c: char): Option<char>
  {
    match c
    case '"' => Some('"')
    case '\\' => Some('\\')
    case '\'' => Some('\'')
    case 'n' => Some('\n')
    case 't' => Some('\t')
    case 'r' => Some('\r')
    case _ => None
  }

  /** Reads the rest of a double-quoted R string; the closing quote must end the text. */
  function ReadBody(t: string): Option<string>
  {
    if t == [] then None
    else if t[0] == '"' then (if |t| == 1 then Some("") else None)
    else if t[0] == '\\' then
      if |t| < 2 then None
      else match (Unescape(t[1]), ReadBody(t[2..]))
        case (Some(c), Some(rest)) => Some([c] + rest)
        case _ => None
    else match ReadBody(t[1..])
      case Some(rest) => Some([t[0]] + rest)
      case None => None
  }

  /** How R's reader takes a text that must be exactly one double-quoted string literal. */
  function ReadString(t: string): Option<string>
  {
    if t == [] || t[0] != '"' then None else ReadBody(t[1..])
  }

  lemma {:induction false} ReadEscaped(s: string)
    ensures ReadBody(Escape(s) + "\"") == Some(s)
  {
    if s != [] {
      ReadEscaped(s[1..]);
      var e := Escape(s[1..]) + "\"";
      if s[0] == '"' || s[0] == '\\' {
        assert Escape(s) + "\"" == ['\\', s[0]] + e;
        assert (['\\', s[0]] + e)[2..] == e;
      } else {
        assert Escape(s) + "\"" == [s[0]] + e;
        assert ([s[0]] + e)[1..] == e;
      }
      assert [s[0]] + s[1..] == s;
    }
  }

  /** Every host string survives the trip into R: the rendered literal reads back as that string. */
  lemma StringLiteralRoundTrip(s: string)
    ensures ReadString(Literal(Str(s))) == Some(s)
  {
    ReadEscaped(s);
    assert Literal(Str(s))[1..] == Escape(s) + "\"";
  }

  /** For strings without quotes or backslashes the escaped literal is the literal the source writes. */
  lemma LiteralAgreesOnPlainStrings(v: HostValue)
    requires v.Str? ==> '"' !in v.s && '\\' !in v.s
    ensures Literal(v) == LiteralAsWritten(v)
  {
  }

  /** As written, a string holding a quote becomes text that is no R string literal at all. */
  lemma LiteralAsWrittenBreaksOnQuote()
    ensures LiteralAsWritten(Str("a\"b")) == "\"a\"b\""
    ensures ReadString(LiteralAsWritten(Str("a\"b"))) == None
  {
    var t := LiteralAsWritten(Str("a\"b"));
    assert t[1..] == "a\"b\"";
    assert t[1..][1..] == "\"b\"";
  }

  /** A boolean never renders like a number: `TRUE`/`FALSE`, not `1`/`0` or `True`. */
  lemma BoolIsNotNumber(b: bool, i: int)
    ensures Literal(Bool(b)) != Literal(Int(i))
  {
    var t := IntToString(i);
    assert t[0] == '-' || IsDigit(t[0]);
  }

  // ---------------------------------------------------------------------
  // Calls
  // ---------------------------------------------------------------------

  /** The rendered keyword arguments, `key=value`. */
  function KwargTexts(kwargs: seq<(string, Operand)>): (r: seq<string>)
    ensures |r| == |kwargs|
  {
    seq(|kwargs|, i requires 0 <= i < |kwargs| => kwargs[i].0 + "=" + OperandText(kwargs[i].1))
  }

  /** The call expression of `RObject.__call__`; keyword arguments follow after `, `. */
  function CallExpr(code: string, args: seq<Operand>, kwargs: seq<(string, Operand)>): (r: string)
    ensures |r| >= |code| + 2 && r[..|code| + 1] == code + "(" && r[|r| - 1] == ')'
  {
    var a := Join(ArgTexts(args), ",");
    if kwargs == [] then code + "(" + a + ")"
    else code + "(" + a + ", " + Join(KwargTexts(kwargs), ",") + ")"
  }

  /**
   * Without keyword arguments, the call expression is the callee's code
   * applied to its arguments, and splitting the text between the parentheses
   * at commas gives back each rendered argument, when none contains a comma.
   */
  lemma CallArgumentsRecoverable(code: string, args: seq<Operand>)
    requires |args| >= 1
    requires forall i :: 0 <= i < |args| ==> ',' !in OperandText(args[i])
    ensures var e := CallExpr(code, args, []);
      && |e| >= |code| + 2
      && e[..|code| + 1] == code + "("
      && e[|e| - 1] == ')'
      && Split(e[|code| + 1..|e| - 1], ',') == ArgTexts(args)
  {
    var a := Join(ArgTexts(args), ",");
    var e := CallExpr(code, args, []);
    assert e == code + "(" + a + ")";
    assert e[|code| + 1..|e| - 1] == a;
    assert e[..|code| + 1] == code + "(";
    SplitJoin(ArgTexts(args), ',');
  }

  /**
   * `RObject.__call__`: bind the call to a fresh temporary (`tmp <- call`),
   * send it and flush; the new handle is named by the call and substitutes
   * the temporary.
   */
  method Call(inter: Interpreter, h: Handle, args: seq<Operand>, kwargs: seq<(string, Operand)>,
              tmpStamp: string, keyStamp: string) returns (r: Handle)
    requires inter.Valid() && inter.command.guest == R
    requires forall i :: 0 <= i < |kwargs| ==> kwargs[i].1.Rendered?
    modifies inter, inter.command
    ensures inter.Valid()
    ensures r == Handle(CallExpr(h.code, args, kwargs), MakeTmpVariable(R, tmpStamp))
    ensures inter.command.written == old(inter.command.written)
      + [MakeCode(R, r.code + " <- " + r.name), MakeKeyPair(R, keyStamp).0]
    ensures inter.command.flushed == |inter.command.written|
    ensures inter.keyQ == old(inter.keyQ) + [MatchKey(R, keyStamp)]
    ensures inter.command.cursor == old(inter.command.cursor)
  {
    var code := CallExpr(h.code, args, kwargs);
    var tmp := MakeTmpVariable(R, tmpStamp);
    var _ := inter.Send(tmp + " <- " + code, keyStamp);
    inter.Flush();
    r := NewHandle(code, tmp);
  }

  /** The binary operators R's grammar accepts among those the proxy needs. */
  const BinaryOperators: set<string> :=
    {"+", "-", "*", "/", "%%", "||", "&&", "|", "&", "<", "<=", ">", ">=", "==", "!="}

  /** The operator table `RObject` inherits is JavaScript's: R has neither `===`, `!==` nor a bare `%`. */
  lemma InheritedSymbolsAreNotR()
    ensures OpSymbol(Eq) !in BinaryOperators
    ensures OpSymbol(Ne) !in BinaryOperators
    ensures OpSymbol(Mod) !in BinaryOperators
  {
  }

  /** R's spelling of each operator: equality `==`, inequality `!=`, remainder `%%`. */
  function Symbol(op: Op): string
  {
    match op
    case Eq => "=="
    case Ne => "!="
    case Mod => "%%"
    case _ => OpSymbol(op)
  }

  /** Every operator becomes an R operator, and no two are confused. */
  lemma SymbolsAreR(a: Op, b: Op)
    ensures Symbol(a) in BinaryOperators
    ensures Symbol(a) == Symbol(b) <==> a == b
  {
  }

  /**
   * `RObject._operator` as written: JavaScript symbols, and a proxy operand
   * rendered through `__str__`. It is the corrected handle exactly when the
   * operand is a host value and the operator is spelled alike in both
   * languages.
   */
  function OperatorAsWritten(h: Handle, other: Operand, op: Op, tmpStamp: string): (r: Handle)
    ensures r.code == MakeTmpVariable(R, tmpStamp)
    ensures other.Proxy? ==> r.name == Compose(h, OpSymbol(op), ProxyStr("RObject", other.handle))
    ensures r == Operator(h, other, op, tmpStamp) <==> other.Rendered? && op !in {Eq, Ne, Mod}
  {
    NewHandle(OperatorExprAsWritten("RObject", h, other, op), MakeTmpVariable(R, tmpStamp))
  }

  /**
   * `RObject._operator` corrected: the expression over the operands' codes
   * with R's symbols, and a fresh temporary name; nothing is sent, so the
   * temporary stays unbound in the guest.
   */
  function Operator(h: Handle, other: Operand, op: Op, tmpStamp: string): (r: Handle)
    ensures r.code == MakeTmpVariable(R, tmpStamp)
    ensures r.name == Compose(h, Symbol(op), OperandText(other))
  {
    NewHandle(Compose(h, Symbol(op), OperandText(other)), MakeTmpVariable(R, tmpStamp))
  }

  /** As written, `x == 1` on an R proxy names the expression `(x === 1)`, which R cannot parse. */
  lemma OperatorAsWrittenIsNotR()
    ensures OperatorAsWritten(Lookup("x"), Rendered("1"), Eq, "t").name == "(x === 1)"
    ensures Operator(Lookup("x"), Rendered("1"), Eq, "t").name == "(x == 1)"
  {
  }

  /**
   * `RObject.__setitem__`: send `code$key <- value` without flushing or
   * waiting. The value is rendered as the source renders it, so a string
   * holding a quote reaches R broken.
   */
  method SetItem(inter: Interpreter, h: Handle, key: string, v: HostValue, stamp: string)
    requires inter.Valid() && inter.command.guest == R
    modifies inter, inter.command
    ensures inter.Valid()
    ensures inter.command.written == old(inter.command.written)
      + [MakeCode(R, h.code + "$" + key + " <- " + LiteralAsWritten(v)), MakeKeyPair(R, stamp).0]
    ensures inter.keyQ == old(inter.keyQ) + [MatchKey(R, stamp)]
    ensures inter.command.cursor == old(inter.command.cursor) && inter.command.flushed == old(inter.command.flushed)
  {
    var _ := inter.Send(h.code + "$" + key + " <- " + LiteralAsWritten(v), stamp);
  }

  // ---------------------------------------------------------------------
  // Element access
  // ---------------------------------------------------------------------

  /** The keys `RObject.__getitem__` distinguishes; a slice bound is absent when Python gives `None`. */
  datatype Key = KStr(s: string) | KInt(i: int) | KSlice(start: Option<int>, stop: Option<int>) | KOther

  /** Python truthiness of a slice bound: present and non-zero. */
  predicate Truthy(b: Option<int>)
  {
    b.Some? && b.value != 0
  }

  /**
   * The access policy of `RObject.__getitem__`: on a list, `$name`, `[[i]]`
   * or `[start:stop]`; on anything else only an integer, shifted to R's
   * 1-based `[i+1]`; every other key raises.
   */
  function IndexExpr(code: string, isList: bool, key: Key): (r: Result<string>)
    ensures r.Ok? ==> |r.value| > |code| && r.value[..|code|] == code
    ensures !isList && r.Err? ==> r.error == "In this case, slice should be int or slice"
  {
    if isList then
      match key
      case KStr(s) => Ok(code + "$" + s)
      case KInt(i) => Ok(code + "[[" + IntToString(i) + "]]")
      case KSlice(start, stop) =>
        if Truthy(start) && Truthy(stop) then Ok(code + "[" + IntToString(start.value) + ":" + IntToString(stop.value) + "]")
        else Err("Slice is not good for R")
      case KOther => Err("Slice or getting item could not work")
    else
      match key
      case KInt(i) => Ok(code + "[" + IntToString(i + 1) + "]")
      case _ => Err("In this case, slice should be int or slice")
  }

  /**
   * Which keys succeed, and that an integer key can be read back from the
   * expression: unchanged inside `[[ ]]` on a list, plus one inside `[ ]`
   * otherwise.
   */
  lemma IndexPolicy(code: string, isList: bool, key: Key)
    ensures IndexExpr(code, isList, key).Ok? <==>
      if isList then key.KStr? || key.KInt? || (key.KSlice? && Truthy(key.start) && Truthy(key.stop))
      else key.KInt?
    ensures key.KInt? && isList ==> var e := IndexExpr(code, isList, key).value;
      |e| >= |code| + 4 && e[..|code| + 2] == code + "[[" && ParseInt(e[|code| + 2..|e| - 2]) == key.i
    ensures key.KInt? && !isList ==> var e := IndexExpr(code, isList, key).value;
      |e| >= |code| + 2 && e[..|code| + 1] == code + "[" && ParseInt(e[|code| + 1..|e| - 1]) == key.i + 1
  {
    if key.KInt? {
      var e := IndexExpr(code, isList, key).value;
      if isList {
        var t := IntToString(key.i);
        assert e == code + "[[" + t + "]]";
        assert e[|code| + 2..|e| - 2] == t;
        assert e[..|code| + 2] == code + "[[";
        IntToStringRoundTrip(key.i);
      } else {
        var t := IntToString(key.i + 1);
        assert e == code + "[" + t + "]";
        assert e[|code| + 1..|e| - 1] == t;
        assert e[..|code| + 1] == code + "[";
        IntToStringRoundTrip(key.i + 1);
      }
    }
  }

  /** The probe `__getitem__` runs: whether the target is an R list. */
  function IsListProbe(code: string): string
  {
    "is.list(" + code + ")"
  }

  /**
   * `RObject.__getitem__`: a blocking `is.list` probe, then the access
   * policy; the new handle's name and code are both the access expression.
   */
  method GetItem(inter: Interpreter, h: Handle, key: Key, stamp: string) returns (r: Result<Handle>)
    requires inter.Valid() && inter.command.guest == R
    requires CanReceiveByKey(Link(inter.keyQ + [MatchKey(R, stamp)], inter.command.cursor),
                             inter.command.lines, MatchKey(R, stamp))
    modifies inter, inter.command
    ensures inter.Valid()
    ensures inter.command.written == old(inter.command.written)
      + [MakeCode(R, IsListProbe(h.code)), MakeKeyPair(R, stamp).0]
    ensures var (l, probe) := Wire.ReceiveByKey(Link(old(inter.keyQ) + [MatchKey(R, stamp)], old(inter.command.cursor)),
                                                inter.command.lines, MatchKey(R, stamp));
      && inter.State() == l
      && r == match IndexExpr(h.code, Strip(probe) == "[1] TRUE", key)
              case Ok(c) => Ok(Handle(c, c))
              case Err(e) => Err(e)
  {
    var probe := inter.Get(IsListProbe(h.code), stamp);
    var isList := Strip(probe) == "[1] TRUE";
    match IndexExpr(h.code, isList, key)
    case Ok(c) => r := Ok(NewHandle(c, c));
    case Err(e) => r := Err(e);
  }

  // ---------------------------------------------------------------------
  // Reading replies
  // ---------------------------------------------------------------------

  /** Every line carries an index, that is, holds a `]`. */
  predicate Indexed(lines: seq<string>)
  {
    forall i :: 0 <= i < |lines| ==> ']' in lines[i]
  }

  /** Each line without its `[i]` index: the text after its first `]`; a line without one fails. */
  function DropIndexes(lines: seq<string>): (r: Result<seq<string>>)
    ensures r.Ok? <==> Indexed(lines)
    ensures r.Ok? ==> |r.value| == |lines|
    ensures r.Ok? ==> forall i :: 0 <= i < |lines| ==> AfterFirst(lines[i], ']', r.value[i])
  {
    if lines == [] then Ok([])
    else match (Find(lines[0], ']'), DropIndexes(lines[1..]))
      case (Some(p), Ok(rest)) => Ok([lines[0][p + 1..]] + rest)
      case (None, _) => Err("substring not found")
      case (_, Err(e)) => Err(e)
  }

  /** `rest` is what follows the first `c` of `line`. */
  predicate AfterFirst(line: string, c: char, rest: string)
  {
    var n := |line| - |rest| - 1;
    && 0 <= n
    && line[n] == c
    && c !in line[..n]
    && rest == line[n + 1..]
  }

  /** After a prefix free of `c`, the first `c` is the one that ends the prefix. */
  lemma AfterFirstOfPrefix(p: string, c: char, b: string, rest: string)
    requires c !in p && AfterFirst(p + [c] + b, c, rest)
    ensures rest == b
  {
    var line := p + [c] + b;
    forall m | |p| < m <= |line| ensures c in line[..m] {
      assert line[..m][|p|] == c;
    }
    assert forall m :: 0 <= m < |p| ==> line[m] == p[m];
  }

  /** `_remove_index`: split the reply into lines and drop each line's index prefix. */
  function RemoveIndex(text: string): (r: Result<seq<string>>)
    ensures r.Ok? <==> Indexed(Split(text, '\n'))
    ensures r.Ok? ==> |r.value| == |Split(text, '\n')| >= 1
  {
    DropIndexes(Split(text, '\n'))
  }

  /** R's printed form of a vector, one `[i] body` per line. */
  function PrintedLines(prefixes: seq<string>, bodies: seq<string>): (r: seq<string>)
    requires |prefixes| == |bodies|
    ensures |r| == |bodies|
    ensures forall i :: 0 <= i < |r| ==> r[i] == prefixes[i] + "]" + bodies[i]
  {
    seq(|bodies|, i requires 0 <= i < |bodies| => prefixes[i] + "]" + bodies[i])
  }

  /**
   * On R's printed form of a vector, `_remove_index` gives back exactly the
   * bodies, whatever they contain besides line breaks.
   */
  lemma RemoveIndexOfPrinted(prefixes: seq<string>, bodies: seq<string>)
    requires |prefixes| == |bodies| >= 1
    requires forall i :: 0 <= i < |prefixes| ==> ']' !in prefixes[i] && '\n' !in prefixes[i] && '\n' !in bodies[i]
    ensures RemoveIndex(Join(PrintedLines(prefixes, bodies), "\n")) == Ok(bodies)
  {
    var lines := PrintedLines(prefixes, bodies);
    forall i | 0 <= i < |lines| ensures '\n' !in lines[i] && ']' in lines[i] {
      assert lines[i][|prefixes[i]|] == ']';
    }
    SplitJoin(lines, '\n');
    var r := DropIndexes(lines).value;
    forall i | 0 <= i < |lines| ensures r[i] == bodies[i] {
      AfterFirstOfPrefix(prefixes[i], ']', bodies[i], r[i]);
    }
    assert r == bodies;
  }

  /** The index R prints before the first element of a vector. */
  const FirstIndex := "[1] "

  /** A string as R prints it, in double quotes. */
  function Quoted(s: string): string
  {
    "\"" + s + "\""
  }

  /** R's printed form of a one-element character vector. */
  function Printed(text: string): string
  {
    FirstIndex + Quoted(text)
  }

  /** The tag R prints for a one-element vector, stripped of its index: `"numeric"`, `TRUE`. */
  function ClassTag(reply: string): string
  {
    Strip(Drop(reply, IndexWidth))
  }

  /** The tag `class(try(x))` prints when evaluating `x` raised. */
  const TryErrorTag := Quoted("try-error")

  /**
   * The error check of `to_python` on the fourth diagnostic reply: when its
   * last line, past the index and stripped, is `"try-error"`, the lines
   * before it are the error, each on its own line after a leading newline.
   */
  function TryError(reply: string): (r: Option<string>)
    ensures r.Some? ==> r.value != "" && r.value[0] == '\n'
  {
    var error := Split(Strip(reply), '\n');
    if ClassTag(error[|error| - 1]) == TryErrorTag then Some("\n" + Join(error[..|error| - 1], "\n"))
    else None
  }

  /** Text that starts and ends with a visible character loses only a trailing line break to `strip`. */
  lemma StripLine(x: string)
    requires x != [] && !IsSpace(x[0]) && !IsSpace(x[|x| - 1])
    ensures Strip(x) == x && Strip(x + "\n") == x
  {
    StripPadded("", x, "");
    assert "" + x + "" == x;
    StripPadded("", x, "\n");
    assert "" + x + "\n" == x + "\n";
  }

  /** A text without line breaks is one line. */
  lemma OneLine(x: string)
    requires '\n' !in x
    ensures Split(x, '\n') == [x]
  {
    SplitJoin([x], '\n');
  }

  lemma QuotedTag(text: string)
    ensures ClassTag(Printed(text)) == Quoted(text)
    ensures ClassTag(Printed(text) + "\n") == Quoted(text)
  {
    var q := Quoted(text);
    assert Drop(Printed(text), IndexWidth) == q;
    assert Drop(Printed(text) + "\n", IndexWidth) == q + "\n";
    StripLine(q);
  }

  lemma QuotedInjective(a: string, b: string)
    ensures Quoted(a) == Quoted(b) <==> a == b
  {
    if Quoted(a) == Quoted(b) {
      AffixInjective("\"", a, b, "\"");
    }
  }

  /** A printed string is one line that starts and ends with a visible character. */
  lemma PrintedShape(text: string)
    requires '\n' !in text
    ensures var p := Printed(text); p != [] && !IsSpace(p[0]) && !IsSpace(p[|p| - 1]) && '\n' !in p
  {
    assert !IsSpace('[') && !IsSpace('"');
    var p := Printed(text);
    assert p == FirstIndex + ("\"" + text + "\"");
    assert '\n' !in FirstIndex;
  }

  /** R's reply to `class(try(x))` for a value: no error is reported unless the class is `try-error`. */
  lemma TryErrorOnClass(cls: string)
    requires '\n' !in cls
    ensures TryError(Printed(cls) + "\n").Some? <==> cls == "try-error"
  {
    var p := Printed(cls);
    PrintedShape(cls);
    StripLine(p);
    OneLine(p);
    QuotedTag(cls);
    QuotedInjective(cls, "try-error");
  }

  /** A join begins with its first piece. */
  lemma JoinFirst(lines: seq<string>, sep: string)
    requires |lines| >= 1
    ensures var j := Join(lines, sep); |j| >= |lines[0]| && j[..|lines[0]|] == lines[0]
  {
  }

  /** A join ends with its last piece. */
  lemma {:induction false} JoinLast(lines: seq<string>, sep: string)
    requires |lines| >= 1
    ensures var j := Join(lines, sep); var z := lines[|lines| - 1];
      |j| >= |z| && j[|j| - |z|..] == z
  {
    if |lines| > 1 {
      JoinLast(lines[1..], sep);
      assert lines[1..][|lines| - 2] == lines[|lines| - 1];
    }
  }

  /** A join of lines whose outer ends are visible is a text `strip` leaves alone. */
  lemma JoinVisible(lines: seq<string>)
    requires |lines| >= 1 && lines[0] != [] && !IsSpace(lines[0][0])
    requires var z := lines[|lines| - 1]; z != [] && !IsSpace(z[|z| - 1])
    ensures var j := Join(lines, "\n"); Strip(j + "\n") == j
  {
    var j := Join(lines, "\n");
    JoinFirst(lines, "\n");
    JoinLast(lines, "\n");
    assert j[0] == j[..|lines[0]|][0];
    var z := lines[|lines| - 1];
    assert j[|j| - 1] == j[|j| - |z|..][|z| - 1];
    StripLine(j);
  }

  /**
   * R's reply to `class(try(x))` when `x` raised: the diagnostic lines, then
   * `[1] "try-error"`. The error is detected and carries exactly those lines.
   */
  lemma TryErrorOnFailure(diag: seq<string>)
    requires forall i :: 0 <= i < |diag| ==> '\n' !in diag[i]
    requires diag != [] ==> diag[0] != [] && !IsSpace(diag[0][0])
    ensures TryError(Join(diag + [Printed("try-error")], "\n") + "\n") == Some("\n" + Join(diag, "\n"))
  {
    TryErrorLine();
    ErrorLinesDetected(diag, Printed("try-error"));
  }

  /** The printed `try-error` tag is one visible line whose tag is `TryErrorTag`. */
  lemma TryErrorLine()
    ensures var p := Printed("try-error"); p != [] && !IsSpace(p[0]) && !IsSpace(p[|p| - 1]) && '\n' !in p
    ensures ClassTag(Printed("try-error")) == TryErrorTag
  {
    PrintedShape("try-error");
    QuotedTag("try-error");
  }

  /** The lines before a final line tagged `try-error` are reported as the error. */
  lemma ErrorLinesDetected(diag: seq<string>, last: string)
    requires forall i :: 0 <= i < |diag| ==> '\n' !in diag[i]
    requires diag != [] ==> diag[0] != [] && !IsSpace(diag[0][0])
    requires last != [] && !IsSpace(last[0]) && !IsSpace(last[|last| - 1]) && '\n' !in last
    requires ClassTag(last) == TryErrorTag
    ensures TryError(Join(diag + [last], "\n") + "\n") == Some("\n" + Join(diag, "\n"))
  {
    var lines := diag + [last];
    var j := Join(lines, "\n");
    AppendedLinesSplit(diag, last);
    AppendedLinesStrip(diag, last);
    assert Split(Strip(j + "\n"), '\n') == lines;
    assert lines[..|lines| - 1] == diag;
    TryErrorOfLines(j + "\n", lines);
  }

  lemma AppendedLinesSplit(diag: seq<string>, last: string)
    requires forall i :: 0 <= i < |diag| ==> '\n' !in diag[i]
    requires '\n' !in last
    ensures Split(Join(diag + [last], "\n"), '\n') == diag + [last]
  {
    var lines := diag + [last];
    assert forall i :: 0 <= i < |lines| ==> '\n' !in lines[i];
    SplitJoin(lines, '\n');
  }

  lemma AppendedLinesStrip(diag: seq<string>, last: string)
    requires diag != [] ==> diag[0] != [] && !IsSpace(diag[0][0])
    requires last != [] && !IsSpace(last[0]) && !IsSpace(last[|last| - 1])
    ensures Strip(Join(diag + [last], "\n") + "\n") == Join(diag + [last], "\n")
  {
    var lines := diag + [last];
    if diag == [] {
      assert lines[0] == last;
    } else {
      assert lines[0] == diag[0];
    }
    assert lines[|lines| - 1] == last;
    JoinVisible(lines);
  }

  /** The error check on a reply whose stripped lines end in the `try-error` tag. */
  lemma TryErrorOfLines(reply: string, lines: seq<string>)
    requires |lines| >= 1 && Split(Strip(reply), '\n') == lines
    requires ClassTag(lines[|lines| - 1]) == TryErrorTag
    ensures TryError(reply) == Some("\n" + Join(lines[..|lines| - 1], "\n"))
  {
  }

  // ---------------------------------------------------------------------
  // Materialising
  // ---------------------------------------------------------------------

  /** Which branch of `to_python` decodes the value. */
  datatype Decoder =
    | Character   // `_convert_character`
    | Numeric     // `_convert_numeric`
    | Matrix      // `_convert_matrix`
    | DataFrame   // `_convert_dataframe`
    | KeepProxy   // the handle itself is returned
    | PrintedText // the stripped printout of `get(name)`
    | NoValue     // a vector of another class: `to_python` falls through and returns `None`

  /** The class-tag dispatch of `to_python`. */
  function Dispatch(tag: string, isVector: bool): (r: Decoder)
    ensures isVector <==> r in {Character, Numeric, NoValue}
    ensures r == KeepProxy <==> !isVector && (tag == Quoted("function") || tag == Quoted("list"))
  {
    if isVector then
      if tag == Quoted("character") then Character
      else if tag == Quoted("numeric") then Numeric
      else NoValue
    else if tag == Quoted("matrix") then Matrix
    else if tag == Quoted("data.frame") then DataFrame
    else if tag == Quoted("function") || tag == Quoted("list") then KeepProxy
    else PrintedText
  }

  /**
   * The decision `to_python` takes from the replies to `class`, `typeof`,
   * `is.vector` and `class(try(...))`: raise with the guest's error text,
   * or pick a decoder by class tag.
   */
  function Materialize(replies: seq<string>): (r: Result<Decoder>)
    requires |replies| == 4
    ensures r.Err? <==> TryError(replies[3]).Some?
    ensures r.Err? ==> "\n\n" + ExceptionHeader <= r.error
    ensures r.Ok? ==> (r.value in {Character, Numeric, NoValue} <==> ClassTag(replies[2]) == "TRUE")
  {
    match TryError(replies[3])
    case Some(msg) => Err(ExceptionText([msg]))
    case None => Ok(Dispatch(ClassTag(replies[0]), ClassTag(replies[2]) == "TRUE"))
  }

  /**
   * A failed evaluation raises with the diagnostic lines in the exception
   * text, whatever the other three replies say.
   */
  lemma MaterializeRaises(replies: seq<string>, diag: seq<string>)
    requires |replies| == 4
    requires forall i :: 0 <= i < |diag| ==> '\n' !in diag[i]
    requires diag != [] ==> diag[0] != [] && !IsSpace(diag[0][0])
    requires replies[3] == Join(diag + [Printed("try-error")], "\n") + "\n"
    ensures Materialize(replies) == Err(ExceptionText(["\n" + Join(diag, "\n")]))
  {
    TryErrorOnFailure(diag);
  }

  /** R's printed form of a logical scalar. */
  function PrintedLogical(b: bool): string
  {
    FirstIndex + (if b then "TRUE" else "FALSE")
  }

  lemma LogicalTag(b: bool)
    ensures ClassTag(PrintedLogical(b) + "\n") == (if b then "TRUE" else "FALSE")
  {
    var t := if b then "TRUE" else "FALSE";
    assert Drop(PrintedLogical(b) + "\n", IndexWidth) == t + "\n";
    StripLine(t);
  }

  /** Without a vector, the class alone picks the decoder. */
  lemma DispatchNonVector(cls: string)
    ensures Dispatch(Quoted(cls), false) == KeepProxy <==> cls == "function" || cls == "list"
    ensures Dispatch(Quoted(cls), false) == Matrix <==> cls == "matrix"
    ensures Dispatch(Quoted(cls), false) == DataFrame <==> cls == "data.frame"
  {
    QuotedInjective(cls, "function");
    QuotedInjective(cls, "list");
    QuotedInjective(cls, "matrix");
    QuotedInjective(cls, "data.frame");
  }

  /**
   * A value that evaluated is never reported as an error, and when it is not
   * a vector its class alone picks the decoder: a function or a list comes
   * back as the handle itself, a matrix and a data frame get their decoders.
   */
  lemma MaterializeNonVector(replies: seq<string>, cls: string)
    requires |replies| == 4 && '\n' !in cls && cls != "try-error"
    requires replies[0] == Printed(cls) + "\n" && replies[3] == Printed(cls) + "\n"
    requires replies[2] == PrintedLogical(false) + "\n"
    ensures Materialize(replies).Ok?
    ensures Materialize(replies).value == KeepProxy <==> cls == "function" || cls == "list"
    ensures Materialize(replies).value == Matrix <==> cls == "matrix"
    ensures Materialize(replies).value == DataFrame <==> cls == "data.frame"
  {
    TryErrorOnClass(cls);
    QuotedTag(cls);
    LogicalTag(false);
    assert ClassTag(replies[2]) != "TRUE";
    assert Materialize(replies) == Ok(Dispatch(Quoted(cls), false));
    DispatchNonVector(cls);
  }

  /** `to_python` can finish: the first reply is awaited by key, the next three one by one. */
  predicate CanDiagnose(l: Link, lines: seq<string>, k: string)
  {
    && CanReceiveByKey(l, lines, k)
    && var l1 := Wire.ReceiveByKey(l, lines, k).0;
    && CanReceiveOne(l1, lines)
    && var l2 := Wire.ReceiveOne(l1, lines).0;
    && CanReceiveOne(l2, lines)
    && CanReceiveOne(Wire.ReceiveOne(l2, lines).0, lines)
  }

  /** The reads of `to_python`: `receive_by_key` for the first question, then three `receive_one`. */
  function Diagnose(l: Link, lines: seq<string>, k: string): (r: (Link, seq<string>))
    requires CanDiagnose(l, lines, k)
    ensures |r.1| == 4
  {
    var (l1, t1) := Wire.ReceiveByKey(l, lines, k);
    var (l2, a2) := Wire.ReceiveOne(l1, lines);
    var (l3, a3) := Wire.ReceiveOne(l2, lines);
    var (l4, a4) := Wire.ReceiveOne(l3, lines);
    (l4, [t1, a2.1, a3.1, a4.1])
  }

  /**
   * On an idle engine the four diagnostic replies answer the four questions
   * in order, read back to back from the cursor, and the queue ends empty,
   * even if stamps collided.
   */
  lemma DiagnoseInOrder(keys: seq<string>, c: nat, lines: seq<string>)
    requires |keys| == 4
    requires CanDiagnose(Link(keys, c), lines, keys[0])
    ensures var (l, replies) := Diagnose(Link(keys, c), lines, keys[0]);
      && CanReadPipelined(lines, c, keys)
      && replies == Pipelined(lines, c, keys)
      && l == Link([], PipelinedEnd(lines, c, keys))
  {
    var l0 := Link(keys, c);
    HeadByKey(l0, lines);
    var (l1, a1) := Wire.ReceiveOne(l0, lines);
    var (l2, a2) := Wire.ReceiveOne(l1, lines);
    var (l3, a3) := Wire.ReceiveOne(l2, lines);
    var (l4, a4) := Wire.ReceiveOne(l3, lines);
    assert Diagnose(l0, lines, keys[0]) == (l4, [a1.1, a2.1, a3.1, a4.1]);
    assert l1.queue == keys[1..] && l2.queue == keys[2..] && l3.queue == keys[3..] && l4.queue == [];
    PipelinedStep(l3, lines);
    PipelinedStep(l2, lines);
    PipelinedStep(l1, lines);
    PipelinedStep(l0, lines);
    FourReplies(a1.1, a2.1, a3.1, a4.1);
  }

  lemma FourReplies(a: string, b: string, c: string, d: string)
    ensures [a] + ([b] + ([c] + ([d] + []))) == [a, b, c, d]
  {
  }

  /** Waiting by key for the head of the queue is one `receive_one`. */
  lemma HeadByKey(l: Link, lines: seq<string>)
    requires CanReceiveOne(l, lines) && l.queue != []
    ensures var (next, reply) := Wire.ReceiveOne(l, lines);
      CanReceiveByKey(l, lines, l.queue[0]) && Wire.ReceiveByKey(l, lines, l.queue[0]) == (next, reply.1)
  {
  }

  /** The four diagnostic questions `to_python` sends about `name`. */
  function Questions(name: string): seq<string>
  {
    ["class(" + name + ")", "typeof(" + name + ")", "is.vector(" + name + ")", "class(try(" + name + "))"]
  }

  /** The match lines of the four questions. */
  function Keys(stamps: seq<string>): (r: seq<string>)
    requires |stamps| == 4
    ensures |r| == 4
  {
    [MatchKey(R, stamps[0]), MatchKey(R, stamps[1]), MatchKey(R, stamps[2]), MatchKey(R, stamps[3])]
  }

  /** The chunks the four questions write. */
  function QuestionChunks(name: string, stamps: seq<string>): seq<string>
    requires |stamps| == 4
  {
    var q := Questions(name);
    [MakeCode(R, q[0]), MakeKeyPair(R, stamps[0]).0, MakeCode(R, q[1]), MakeKeyPair(R, stamps[1]).0,
     MakeCode(R, q[2]), MakeKeyPair(R, stamps[2]).0, MakeCode(R, q[3]), MakeKeyPair(R, stamps[3]).0]
  }

  /** The sending half of `to_python`: the four questions, pipelined, then one flush. */
  method Ask(inter: Interpreter, name: string, stamps: seq<string>)
    requires inter.Valid() && inter.command.guest == R && |stamps| == 4
    modifies inter, inter.command
    ensures inter.Valid()
    ensures inter.State() == Link(old(inter.keyQ) + Keys(stamps), old(inter.command.cursor))
    ensures inter.command.written == old(inter.command.written) + QuestionChunks(name, stamps)
    ensures inter.command.flushed == |inter.command.written|
  {
    var q := Questions(name);
    var _ := inter.Send(q[0], stamps[0]);
    var _ := inter.Send(q[1], stamps[1]);
    var _ := inter.Send(q[2], stamps[2]);
    var _ := inter.Send(q[3], stamps[3]);
    inter.Flush();
  }

  /** The reading half of `to_python`. */
  method ReadDiagnosis(inter: Interpreter, nameKey: string) returns (replies: seq<string>)
    requires inter.Valid() && CanDiagnose(inter.State(), inter.command.lines, nameKey)
    modifies inter, inter.command
    ensures inter.Valid()
    ensures (inter.State(), replies) == Diagnose(old(inter.State()), inter.command.lines, nameKey)
    ensures inter.command.written == old(inter.command.written) && inter.command.flushed == old(inter.command.flushed)
  {
    var interClass := inter.ReceiveByKey(nameKey);
    var _, interType := inter.ReceiveOne();
    var _, vector := inter.ReceiveOne();
    var _, error := inter.ReceiveOne();
    replies := [interClass, interType, vector, error];
  }

  /**
   * `RObject.to_python` up to the choice of decoder: send the four questions
   * about the handle's name, flush, read the replies, raise if the value is
   * an error, otherwise pick the decoder by class tag.
   */
  method ToPython(inter: Interpreter, h: Handle, stamps: seq<string>) returns (r: Result<Decoder>)
    requires inter.Valid() && inter.command.guest == R && |stamps| == 4
    requires CanDiagnose(Link(inter.keyQ + Keys(stamps), inter.command.cursor),
                         inter.command.lines, MatchKey(R, stamps[0]))
    modifies inter, inter.command
    ensures inter.Valid()
    ensures var (l, replies) := Diagnose(Link(old(inter.keyQ) + Keys(stamps), old(inter.command.cursor)),
                                         inter.command.lines, MatchKey(R, stamps[0]));
      inter.State() == l && r == Materialize(replies)
    ensures inter.command.written == old(inter.command.written) + QuestionChunks(h.name, stamps)
    ensures inter.command.flushed == |inter.command.written|
  {
    Ask(inter, h.name, stamps);
    var replies := ReadDiagnosis(inter, MatchKey(R, stamps[0]));
    match TryError(replies[3])
    case Some(msg) => r := Err(ExceptionText([msg]));
    case None => r := Ok(Dispatch(ClassTag(replies[0]), ClassTag(replies[2]) == "TRUE"));
  }
}
