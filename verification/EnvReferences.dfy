/** The scanner for ${NAME<operator><argument>} and $NAME in compose files, and the round
    trip with a printer of interpolation trees. */
module EnvReferences {

  datatype Reference = Reference(name: string, operator: string, argument: string)

  predicate IsNameStart(c: char) {
    'A' <= c <= 'Z' || 'a' <= c <= 'z' || c == '_'
  }

  predicate IsNameChar(c: char) {
    IsNameStart(c) || '0' <= c <= '9'
  }

  function NameRun(s: string): (n: nat)
    ensures n <= |s|
  {
    if s != "" && IsNameChar(s[0]) then 1 + NameRun(s[1..]) else 0
  }

  /** The length of the name a text starts with; 0 if it starts with none. */
  function NameLength(s: string): (n: nat)
    ensures n <= |s|
  {
    if s != "" && IsNameStart(s[0]) then 1 + NameRun(s[1..]) else 0
  }

  predicate Opens(s: string) {
    |s| >= 2 && s[0] == '$' && s[1] == '{'
  }

  /** How much of a text is read until `depth` open braces are closed, or it ends. */
  function Consumed(s: string, depth: nat): (n: nat)
    ensures n <= |s|
    decreases |s|
  {
    if s == "" || depth == 0 then 0
    else if Opens(s) then 2 + Consumed(s[2..], depth + 1)
    else if s[0] == '}' then 1 + Consumed(s[1..], depth - 1)
    else 1 + Consumed(s[1..], depth)
  }

  const OPERATORS: seq<string> := [":-", ":?", ":+", "-", "?", "+"]

  /** The first of the operators, in their order, that a body starts with. */
  function OperatorOf(body: string): (op: string)
    ensures op <= body
  {
    if ":-" <= body then ":-"
    else if ":?" <= body then ":?"
    else if ":+" <= body then ":+"
    else if "-" <= body then "-"
    else if "?" <= body then "?"
    else if "+" <= body then "+"
    else ""
  }

  /** What lies between a name and the character its braces were closed by. */
  function BodyOf(s: string): string {
    var n := Consumed(s, 1);
    if n == 0 then "" else s[..n - 1]
  }

  /** Every reference of a text, outer before nested, left to right. */
  function References(text: string): seq<Reference>
    decreases |text|
  {
    if text == "" then []
    else if text[0] != '$' then References(text[1..])
    else if |text| >= 2 && text[1] == '$' then References(text[2..])
    else if Opens(text) then
      var n := NameLength(text[2..]);
      if n == 0 then References(text[2..])
      else
        var after := text[2 + n..];
        var body := BodyOf(after);
        var op := OperatorOf(body);
        var argument := body[|op|..];
        [Reference(text[2..2 + n], op, argument)] + References(argument) + References(after[Consumed(after, 1)..])
    else
      var n := NameLength(text[1..]);
      if n == 0 then References(text[1..])
      else [Reference(text[1..1 + n], "", "")] + References(text[1 + n..])
  }

  /** A letter of the ASCII alphabet or an underscore, by its code. */
  predicate IsLetter(c: char) {
    65 <= c as int <= 90 || 97 <= c as int <= 122 || c as int == 95
  }

  predicate IsDigit(c: char) {
    48 <= c as int <= 57
  }

  /** A text starts with n letters and digits, and no more. */
  ghost predicate IsRun(s: string, n: nat) {
    && n <= |s| && (forall i :: 0 <= i < n ==> IsLetter(s[i]) || IsDigit(s[i]))
    && (n < |s| ==> !IsLetter(s[n]) && !IsDigit(s[n]))
  }

  lemma {:induction false} RunIs(s: string)
    ensures IsRun(s, NameRun(s))
  {
    if s != "" {
      if IsNameChar(s[0]) {
        RunIs(s[1..]);
        var n := NameRun(s);
        forall i | 0 <= i < n ensures IsLetter(s[i]) || IsDigit(s[i]) {
          if i > 0 {
            assert s[1..][i - 1] == s[i];
          }
        }
        assert n < |s| ==> s[1..][n - 1] == s[n];
      }
    }
  }

  /** A name is a letter or an underscore and every letter, digit and underscore that follows. */
  lemma NameIsLongest(s: string)
    ensures s == "" || !IsLetter(s[0]) ==> NameLength(s) == 0
    ensures s != "" && IsLetter(s[0]) ==> NameLength(s) > 0 && IsRun(s, NameLength(s))
  {
    if s != "" {
      RunIs(s);
    }
  }

  /** The operators: a minus, a question mark or a plus, with or without a colon before it. */
  lemma OperatorIs(body: string)
    ensures
      OperatorOf(body)
      == if |body| >= 2 && body[0] == ':' && body[1] in "-?+" then body[..2]
         else if |body| >= 1 && body[0] in "-?+" then body[..1]
         else ""
  {
    assert forall op :: op in OPERATORS && op <= body ==> body[..|op|] == op;
    if |body| >= 2 && body[0] == ':' && body[1] in "-?+" {
      assert body[..2] == [body[0], body[1]];
    } else if |body| >= 1 && body[0] in "-?+" {
      assert body[..1] == [body[0]];
    }
  }

  /** A reference nobody closes is still one, but the last character of the text is lost. */
  lemma UnclosedReference(name: string, rest: string)
    requires IsName(name) && !StartsWithNameChar(rest) && '$' !in rest && '}' !in rest
    ensures
      var body := if rest == "" then "" else rest[..|rest| - 1];
      References("${" + name + rest) == [Reference(name, OperatorOf(body), body[|OperatorOf(body)|..])]
  {
    var body := BodyOf(rest);
    OpenPart(name, rest);
    UnclosedBody(rest);
    NameLengthOver(name, rest);
    ReadParts("${" + name + rest, name, rest, body, "");
    NoDollars(body[|OperatorOf(body)|..]);
  }

  lemma OpenPart(name: string, rest: string)
    ensures
      var text := "${" + name + rest;
      Opens(text) && text[2..] == name + rest && text[2..2 + |name|] == name && text[2 + |name|..] == rest
  {
    assert "${" + name + rest == "${" + (name + rest);
  }

  lemma {:induction false} UnclosedIsRead(rest: string)
    requires '$' !in rest && '}' !in rest
    ensures Consumed(rest, 1) == |rest|
  {
    if rest != "" {
      UnclosedIsRead(rest[1..]);
    }
  }

  lemma UnclosedBody(rest: string)
    requires '$' !in rest && '}' !in rest
    ensures BodyOf(rest) == (if rest == "" then "" else rest[..|rest| - 1]) && rest[Consumed(rest, 1)..] == ""
    ensures '$' !in BodyOf(rest)
  {
    UnclosedIsRead(rest);
  }

  lemma {:induction false} NoDollars(text: string)
    requires '$' !in text
    ensures References(text) == []
  {
    if text != "" {
      NoDollars(text[1..]);
    }
  }

  // --------------------------------------------------------------- the scanner's loops

  method MatchName(text: string, start: nat) returns (end: nat)
    requires start <= |text|
    ensures start <= end <= |text| && end - start == NameLength(text[start..])
  {
    end := start;
    if start == |text| || !IsNameStart(text[start]) {
      return;
    }
    end := start + 1;
    assert text[start..][1..] == text[end..];
    while end < |text| && IsNameChar(text[end])
      invariant start < end <= |text|
      invariant NameLength(text[start..]) == end - start + NameRun(text[end..])
    {
      assert text[end..][1..] == text[end + 1..];
      end := end + 1;
    }
  }

  /** The brace-depth loop. */
  method SkipBraces(text: string, start: nat) returns (k: nat)
    requires start <= |text|
    ensures start <= k <= |text| && k - start == Consumed(text[start..], 1)
  {
    k := start;
    var depth := 1;
    while k < |text| && depth > 0
      invariant start <= k <= |text|
      invariant Consumed(text[start..], 1) == k - start + Consumed(text[k..], depth)
    {
      if k + 1 < |text| && text[k] == '$' && text[k + 1] == '{' {
        assert text[k..][2..] == text[k + 2..];
        depth := depth + 1;
        k := k + 2;
      } else {
        assert text[k..][1..] == text[k + 1..];
        if text[k] == '}' {
          depth := depth - 1;
        }
        k := k + 1;
      }
    }
  }

  /** What reading a text that starts with a braced reference yields, by its parts. */
  lemma ReadParts(text: string, name: string, after: string, body: string, tail: string)
    requires Opens(text) && name != "" && 2 + |name| <= |text| && NameLength(text[2..]) == |name|
    requires text[2..2 + |name|] == name && text[2 + |name|..] == after
    requires BodyOf(after) == body && after[Consumed(after, 1)..] == tail
    ensures
      var op := OperatorOf(body);
      References(text) == [Reference(name, op, body[|op|..])] + References(body[|op|..]) + References(tail)
  {
    assert text != "" && text[0] == '$' && text[1] != '$' && NameLength(text[2..]) != 0;
  }

  lemma NextBraced(text: string, i: nat, j: nat, k: nat, body: string)
    requires i <= |text| && Opens(text[i..]) && i + 2 < j <= k <= |text|
    requires j - i - 2 == NameLength(text[i + 2..]) && k - j == Consumed(text[j..], 1)
    requires body == if k == j then "" else text[j..k - 1]
    ensures
      var op := OperatorOf(body);
      References(text[i..])
      == [Reference(text[i + 2..j], op, body[|op|..])] + References(body[|op|..]) + References(text[k..])
  {
    var rest, name, after := text[i..], text[i + 2..j], text[j..];
    assert rest[2..] == text[i + 2..];
    assert rest[2..2 + |name|] == name;
    assert rest[2 + |name|..] == after;
    assert after[k - j..] == text[k..];
    assert k > j ==> after[..k - j - 1] == body;
    ReadParts(rest, name, after, body, text[k..]);
  }

  lemma NextBare(text: string, i: nat, j: nat)
    requires i < |text| && text[i] == '$' && !Opens(text[i..]) && i + 1 < j <= |text|
    requires j - i - 1 == NameLength(text[i + 1..])
    ensures References(text[i..]) == [Reference(text[i + 1..j], "", "")] + References(text[j..])
  {
    var rest, n := text[i..], j - i - 1;
    assert rest[1..] == text[i + 1..] && rest[1..1 + n] == text[i + 1..j] && rest[1 + n..] == text[j..];
    assert IsNameStart(text[i + 1]);
  }

  lemma NextPlain(text: string, i: nat)
    requires i < |text|
    requires text[i] != '$'
             || (!Opens(text[i..]) && !(i + 1 < |text| && text[i + 1] == '$') && NameLength(text[i + 1..]) == 0)
    ensures References(text[i..]) == References(text[i + 1..])
  {
    assert text[i..][1..] == text[i + 1..];
  }

  lemma NextPair(text: string, i: nat)
    requires i + 1 < |text| && text[i] == '$'
    requires text[i + 1] == '$' || (text[i + 1] == '{' && NameLength(text[i + 2..]) == 0)
    ensures References(text[i..]) == References(text[i + 2..])
  {
    assert text[i..][2..] == text[i + 2..];
  }

  lemma Yielded(text: string, found: seq<Reference>, emitted: seq<Reference>, i: nat, next: nat)
    requires i < next <= |text| && References(text) == found + References(text[i..])
    requires References(text[i..]) == emitted + References(text[next..])
    ensures References(text) == (found + emitted) + References(text[next..])
  {}

  lemma AtTheEnd(text: string)
    ensures References(text[|text|..]) == [] && text[0..] == text
  {}

  /** One turn of the scanner's loop: what it yields at `i` and where it goes on. */
  method NextReference(text: string, i: nat) returns (emitted: seq<Reference>, next: nat)
    requires i < |text|
    ensures i < next <= |text| && References(text[i..]) == emitted + References(text[next..])
    decreases |text|, 1
  {
    emitted := [];
    if i + 1 < |text| && text[i] == '$' && text[i + 1] == '$' {
      NextPair(text, i);
      next := i + 2;
    } else if text[i] != '$' {
      NextPlain(text, i);
      next := i + 1;
    } else if i + 1 < |text| && text[i + 1] == '{' {
      var j := MatchName(text, i + 2);
      if j == i + 2 {
        NextPair(text, i);
        next := i + 2;
      } else {
        emitted, next := NextArgument(text, i, j);
      }
    } else {
      var j := MatchName(text, i + 1);
      if j > i + 1 {
        NextBare(text, i, j);
        emitted := [Reference(text[i + 1..j], "", "")];
        next := j;
      } else {
        NextPlain(text, i);
        next := i + 1;
      }
    }
  }

  /** The turn at a braced reference whose name ends at `j`. */
  method NextArgument(text: string, i: nat, j: nat) returns (emitted: seq<Reference>, next: nat)
    requires i + 2 < j <= |text| && Opens(text[i..]) && j - i - 2 == NameLength(text[i + 2..])
    ensures j <= next <= |text| && References(text[i..]) == emitted + References(text[next..])
    decreases |text|, 0
  {
    next := SkipBraces(text, j);
    var body := if next == j then "" else text[j..next - 1];
    var operator := OperatorOf(body);
    var argument := body[|operator|..];
    var nested := FindReferences(argument);
    NextBraced(text, i, j, next, body);
    emitted := [Reference(text[i + 2..j], operator, argument)] + nested;
  }

  /** The scanner: it ends on every text, and yields the references of its specification. */
  method FindReferences(text: string) returns (found: seq<Reference>)
    ensures found == References(text)
    decreases |text|, 2
  {
    found := [];
    var i := 0;
    AtTheEnd(text);
    while i < |text|
      invariant 0 <= i <= |text|
      invariant References(text) == found + References(text[i..])
    {
      var emitted, next := NextReference(text, i);
      Yielded(text, found, emitted, i, next);
      found := found + emitted;
      i := next;
    }
  }

  // ------------------------------------------------------------- interpolation trees

  datatype Item =
    | Literal(c: char)
    | Escape
    | Bare(name: string)
    | Braced(name: string, operator: string, argument: Doc)

  datatype Doc = Nil | Cons(item: Item, rest: Doc)

  function PrintItem(item: Item): string {
    match item
    case Literal(c) => [c]
    case Escape => "$$"
    case Bare(name) => "$" + name
    case Braced(name, op, argument) => "${" + name + op + Print(argument) + "}"
  }

  function Print(doc: Doc): string {
    match doc
    case Nil => ""
    case Cons(item, rest) => PrintItem(item) + Print(rest)
  }

  /** The tree's references in preorder, each with its printed argument. */
  function Preorder(doc: Doc): seq<Reference> {
    match doc
    case Nil => []
    case Cons(item, rest) =>
      (match item
       case Bare(name) => [Reference(name, "", "")]
       case Braced(name, op, argument) => [Reference(name, op, Print(argument))] + Preorder(argument)
       case _ => [])
      + Preorder(rest)
  }

  predicate IsName(name: string) {
    name != "" && IsNameStart(name[0]) && forall i :: 0 <= i < |name| ==> IsNameChar(name[i])
  }

  predicate StartsWithNameChar(s: string) {
    s != "" && IsNameChar(s[0])
  }

  /** Literals are not dollars, nor, inside an argument, closing braces; an escape inside an
      argument is not right before an opening brace; a bare name ends where it seems to; and
      a reference without an operator has an argument that does not read as one. */
  predicate WellFormed(doc: Doc, inside: bool) {
    match doc
    case Nil => true
    case Cons(item, rest) =>
      && WellFormed(rest, inside)
      && match item
         case Literal(c) => c != '$' && (inside ==> c != '}')
         case Escape => inside ==> !(rest.Cons? && rest.item == Literal('{'))
         case Bare(name) => IsName(name) && !StartsWithNameChar(Print(rest))
         case Braced(name, op, argument) =>
           && IsName(name) && WellFormed(argument, true)
           && (op == "" || op in OPERATORS)
           && (op == "" ==> OperatorOf(Print(argument)) == "" && !StartsWithNameChar(Print(argument)))
  }

  lemma {:induction false} NameRunOver(p: string, tail: string)
    requires (forall i :: 0 <= i < |p| ==> IsNameChar(p[i])) && !StartsWithNameChar(tail)
    ensures NameRun(p + tail) == |p|
  {
    if p == "" {
      assert p + tail == tail;
    } else {
      assert (p + tail)[1..] == p[1..] + tail;
      NameRunOver(p[1..], tail);
    }
  }

  lemma NameLengthOver(name: string, tail: string)
    requires IsName(name) && !StartsWithNameChar(tail)
    ensures NameLength(name + tail) == |name|
  {
    assert (name + tail)[1..] == name[1..] + tail;
    NameRunOver(name[1..], tail);
  }

  lemma {:induction false} ConsumedOverPlain(p: string, tail: string, depth: nat)
    requires depth > 0 && forall i :: 0 <= i < |p| ==> p[i] != '$' && p[i] != '}'
    ensures Consumed(p + tail, depth) == |p| + Consumed(tail, depth)
  {
    if p == "" {
      assert p + tail == tail;
    } else {
      assert (p + tail)[1..] == p[1..] + tail;
      ConsumedOverPlain(p[1..], tail, depth);
    }
  }

  lemma OperatorsArePlain(op: string)
    requires op == "" || op in OPERATORS
    ensures forall i :: 0 <= i < |op| ==> op[i] != '$' && op[i] != '}' && !IsNameChar(op[i])
  {}

  lemma ConsumedOverBraces(rest: string, tail: string, depth: nat)
    requires depth > 0
    ensures Consumed("${" + rest, depth) == 2 + Consumed(rest, depth + 1)
    ensures Consumed("}" + tail, depth + 1) == 1 + Consumed(tail, depth)
  {
    assert ("${" + rest)[2..] == rest && ("}" + tail)[1..] == tail;
  }

  lemma Regroup(open: string, name: string, op: string, shown: string, close: string, tail: string)
    ensures open + name + op + shown + close + tail == open + ((name + op) + (shown + (close + tail)))
  {
    assert open + name + op == open + (name + op);
    assert shown + close + tail == shown + (close + tail);
    assert open + name + op + shown + close + tail == (open + name + op) + (shown + close + tail);
  }

  lemma ConsumedOverBraced(item: Item, tail: string, depth: nat)
    requires item.Braced? && IsName(item.name) && (item.operator == "" || item.operator in OPERATORS) && depth > 0
    requires Consumed(Print(item.argument) + ("}" + tail), depth + 1)
             == |Print(item.argument)| + Consumed("}" + tail, depth + 1)
    ensures Consumed(PrintItem(item) + tail, depth) == |PrintItem(item)| + Consumed(tail, depth)
  {
    var head, inner := item.name + item.operator, Print(item.argument) + ("}" + tail);
    OperatorsArePlain(item.operator);
    ConsumedOverPlain(head, inner, depth + 1);
    ConsumedOverBraces(head + inner, tail, depth);
    Regroup("${", item.name, item.operator, Print(item.argument), "}", tail);
  }

  lemma ConsumedOverEscape(tail: string, depth: nat)
    requires depth > 0 && tail != "" && tail[0] != '{'
    ensures Consumed("$$" + tail, depth) == 2 + Consumed(tail, depth)
  {
    assert ("$$" + tail)[1..] == "$" + tail && ("$" + tail)[1..] == tail;
  }

  lemma ConsumedOverBare(name: string, tail: string, depth: nat)
    requires depth > 0 && IsName(name)
    ensures Consumed("$" + name + tail, depth) == 1 + |name| + Consumed(tail, depth)
  {
    assert ("$" + name + tail)[1..] == name + tail;
    assert ("$" + name + tail)[1] == name[0];
    ConsumedOverPlain(name, tail, depth);
  }

  lemma PrintStart(doc: Doc, tail: string)
    requires WellFormed(doc, true) && tail != "" && tail[0] == '}'
    requires !(doc.Cons? && doc.item == Literal('{'))
    ensures (Print(doc) + tail)[0] != '{'
  {}

  lemma {:induction false} ConsumedOverItem(item: Item, rest: Doc, tail: string, depth: nat)
    requires WellFormed(Cons(item, rest), true) && tail != "" && tail[0] == '}' && depth > 0
    ensures Consumed(PrintItem(item) + (Print(rest) + tail), depth)
            == |PrintItem(item)| + Consumed(Print(rest) + tail, depth)
    decreases item, 1
  {
    var u := Print(rest) + tail;
    match item {
      case Literal(c) => ConsumedOverPlain([c], u, depth);
      case Escape => PrintStart(rest, tail); ConsumedOverEscape(u, depth);
      case Bare(name) => ConsumedOverBare(name, u, depth);
      case Braced(name, op, argument) =>
        ConsumedOverDoc(argument, "}" + u, depth + 1);
        ConsumedOverBraced(item, u, depth);
    }
  }

  /** A well-formed argument is read through to the brace that closes it. */
  lemma {:induction false} ConsumedOverDoc(doc: Doc, tail: string, depth: nat)
    requires WellFormed(doc, true) && tail != "" && tail[0] == '}' && depth > 0
    ensures Consumed(Print(doc) + tail, depth) == |Print(doc)| + Consumed(tail, depth)
    decreases doc, 0
  {
    match doc
    case Nil => assert Print(doc) + tail == tail;
    case Cons(item, rest) =>
      ConsumedOverDoc(rest, tail, depth);
      ConsumedOverItem(item, rest, tail, depth);
      assert Print(doc) + tail == PrintItem(item) + (Print(rest) + tail);
  }

  lemma OperatorRead(op: string, argument: string)
    requires op == "" || op in OPERATORS
    requires op == "" ==> OperatorOf(argument) == ""
    ensures OperatorOf(op + argument) == op
  {
    var body := op + argument;
    if op == "" {
      assert body == argument;
    } else {
      assert op <= body && body[0] == op[0];
      assert |op| == 2 ==> body[1] == op[1];
      assert forall q :: q in OPERATORS && q <= body ==> q[0] == body[0];
      assert forall q :: q in OPERATORS && |q| == 2 && q <= body ==> q[1] == body[1];
    }
  }

  /** What is consumed after the name of a printed braced reference. */
  lemma ConsumedArgument(op: string, argument: Doc, tail: string)
    requires WellFormed(argument, true) && (op == "" || op in OPERATORS)
    ensures Consumed(op + Print(argument) + "}" + tail, 1) == |op| + |Print(argument)| + 1
  {
    var inner := Print(argument) + ("}" + tail);
    OperatorsArePlain(op);
    assert op + Print(argument) + "}" + tail == op + inner;
    ConsumedOverPlain(op, inner, 1);
    ConsumedOverDoc(argument, "}" + tail, 1);
    assert ("}" + tail)[1..] == tail;
  }

  /** A text cut after its `${`, its name, its body and its closing brace. */
  ghost predicate Cut(text: string, name: string, body: string, after: string, tail: string) {
    && |text| >= 2 + |name| && |after| >= |body| + 1
    && Opens(text) && text[2..] == name + after && text[2..2 + |name|] == name && text[2 + |name|..] == after
    && after[..|body|] == body && after[|body| + 1..] == tail
  }

  lemma PrintedIsCut(name: string, op: string, argument: Doc, tail: string)
    ensures Cut(PrintItem(Braced(name, op, argument)) + tail, name,
                op + Print(argument), op + Print(argument) + "}" + tail, tail)
  {
    var body := op + Print(argument);
    CutPlain(name, body, tail);
    assert "${" + name + op + Print(argument) == "${" + name + body;
  }

  lemma CutPlain(name: string, body: string, tail: string)
    ensures Cut("${" + name + body + "}" + tail, name, body, body + "}" + tail, tail)
  {
    var after := body + "}" + tail;
    var text := "${" + name + body + "}" + tail;
    assert text == ("${" + name) + after;
    assert text[2..] == name + after;
  }

  lemma NoNameAfterOperator(op: string, argument: string, tail: string)
    requires op == "" || op in OPERATORS
    requires op == "" ==> !StartsWithNameChar(argument)
    ensures !StartsWithNameChar(op + argument + "}" + tail)
  {
    OperatorsArePlain(op);
    var after := op + argument + "}" + tail;
    assert after[0] == if op != "" then op[0] else if argument != "" then argument[0] else '}';
  }

  lemma ReadCut(text: string, name: string, op: string, shown: string, body: string, after: string, tail: string)
    requires name != "" && Cut(text, name, body, after, tail) && NameLength(name + after) == |name|
    requires Consumed(after, 1) == |body| + 1 && OperatorOf(body) == op && body[|op|..] == shown
    ensures References(text) == [Reference(name, op, shown)] + References(shown) + References(tail)
  {
    ReadParts(text, name, after, body, tail);
  }

  /** Reading a printed braced reference: its name, operator and argument come back, and
      reading goes on right after its closing brace. */
  lemma ReadBraced(name: string, op: string, argument: Doc, tail: string)
    requires IsName(name) && WellFormed(argument, true) && (op == "" || op in OPERATORS)
    requires op == "" ==> OperatorOf(Print(argument)) == "" && !StartsWithNameChar(Print(argument))
    ensures References(PrintItem(Braced(name, op, argument)) + tail)
            == [Reference(name, op, Print(argument))] + References(Print(argument)) + References(tail)
  {
    var shown := Print(argument);
    PrintedIsCut(name, op, argument, tail);
    ConsumedArgument(op, argument, tail);
    OperatorRead(op, shown);
    NoNameAfterOperator(op, shown, tail);
    NameLengthOver(name, op + shown + "}" + tail);
    assert (op + shown)[|op|..] == shown;
    ReadCut(PrintItem(Braced(name, op, argument)) + tail, name, op, shown, op + shown, op + shown + "}" + tail, tail);
  }

  lemma ReadBare(name: string, tail: string)
    requires IsName(name) && !StartsWithNameChar(tail)
    ensures References("$" + name + tail) == [Reference(name, "", "")] + References(tail)
  {
    var text := "$" + name + tail;
    NameLengthOver(name, tail);
    var j := 1 + |name|;
    assert text[1..] == name + tail && text[1..j] == name && text[j..] == tail && text[0..] == text;
    assert text[1] == name[0];
    NextBare(text, 0, j);
  }

  /** Every well-formed interpolation tree, printed, is read back as its references in
      preorder, each with its operator and its printed argument. */
  lemma {:induction false} RoundTrip(doc: Doc, inside: bool)
    requires WellFormed(doc, inside)
    ensures References(Print(doc)) == Preorder(doc)
  {
    match doc
    case Nil =>
    case Cons(item, rest) =>
      var u := Print(rest);
      RoundTrip(rest, inside);
      match item {
        case Literal(c) => assert ([c] + u)[1..] == u;
        case Escape => assert ("$$" + u)[2..] == u;
        case Bare(name) => ReadBare(name, u);
        case Braced(name, op, argument) =>
          RoundTrip(argument, true);
          ReadBraced(name, op, argument, u);
      }
  }

  /** A default with a reference of its own in it, as the compose files have them. */
  const Nested :=
    Cons(Braced("A", ":-", Cons(Literal('x'), Cons(Braced("B", "", Nil), Nil))), Cons(Literal('y'), Nil))

  lemma NestedIsPrinted()
    ensures Print(Nested) == "${A:-x${B}}y" && Print(Nested.item.argument) == "x${B}"
  {
    assert Print(Cons(Braced("B", "", Nil), Nil)) == "${B}";
    assert Print(Nested.item.argument) == "x${B}";
    assert PrintItem(Nested.item) == "${A:-x${B}}";
  }

  lemma NestedIsRead()
    ensures WellFormed(Nested, false) && WellFormed(Nested, true)
    ensures References("${A:-x${B}}y") == [Reference("A", ":-", "x${B}"), Reference("B", "", "")]
  {
    NestedIsPrinted();
    assert OperatorOf("") == "" && !StartsWithNameChar("");
    RoundTrip(Nested, false);
  }
}
