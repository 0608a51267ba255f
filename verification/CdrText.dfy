/** The text of backed up call detail records: what is written, how it is cut into records, and what is read of each. */
module CdrText {
  import opened Common
  import opened Bytes
  import opened Decimal

  /** A value by its dynamic type. What is read of a number is a GoInt; values of any other type are Other. */
  datatype Value =
    | Time(seconds: int64, nanos: nat)
    | Integer(i: int64)
    | Octets(bytes: seq<byte>)
    | Text(text: string)
    | GoInt(n: int64)
    | Other

  type Cdr = map<string, Value>

  // ----- Writing

  predicate Printable(v: Value) {
    v.Time? || v.Integer? || v.Octets? || v.Text?
  }

  function Kind(v: Value): string
    requires Printable(v)
  {
    match v
    case Time(_, _) => "T"
    case Integer(_) => "I"
    case Octets(_) => "O"
    case Text(_) => "S"
  }

  function ValueText(v: Value): string
    requires Printable(v)
  {
    match v
    case Time(seconds, _) => FormatInt(seconds)
    case Integer(i) => FormatInt(i)
    case Octets(bytes) => Hex(bytes)
    case Text(text) => text
  }

  /** Name, type and value; for a value of another type an empty line after the name. */
  function FieldLines(name: string, v: Value): seq<string> {
    if Printable(v) then [name, Kind(v), ValueText(v)] else [name, ""]
  }

  /** Lines, each with its newline. */
  function Unlines(lines: seq<string>): string {
    if lines == [] then "" else lines[0] + "\n" + Unlines(lines[1..])
  }

  /** The fields in the order in which the map gives them. */
  function CdrLines(cdr: Cdr, order: seq<string>): seq<string>
    requires forall name :: name in order ==> name in cdr
  {
    if order == [] then [] else FieldLines(order[0], cdr[order[0]]) + CdrLines(cdr, order[1..])
  }

  /** The fields and an empty line. */
  function CdrString(cdr: Cdr, order: seq<string>): string
    requires forall name :: name in order ==> name in cdr
  {
    Unlines(CdrLines(cdr, order)) + "\n"
  }

  /** An order of all the fields. */
  ghost predicate IsOrder(cdr: Cdr, order: seq<string>) {
    && (forall name :: name in order <==> name in cdr)
    && forall i, j :: 0 <= i < j < |order| ==> order[i] != order[j]
  }

  ghost predicate AreOrders(cdrs: seq<Cdr>, orders: seq<seq<string>>) {
    |orders| == |cdrs| && forall i :: 0 <= i < |cdrs| ==> IsOrder(cdrs[i], orders[i])
  }

  function File(cdrs: seq<Cdr>, orders: seq<seq<string>>): string
    requires |orders| == |cdrs| && forall i :: 0 <= i < |cdrs| ==> forall name :: name in orders[i] ==> name in cdrs[i]
  {
    if cdrs == [] then "" else CdrString(cdrs[0], orders[0]) + File(cdrs[1..], orders[1..])
  }

  // ----- Cutting

  /** The first empty line: where two newlines follow each other. */
  function Blank(data: string): (r: Option<nat>)
    ensures r.Some? ==> r.value + 2 <= |data|
  {
    if |data| < 2 then None
    else if data[0] == '\n' && data[1] == '\n' then Some(0)
    else match Blank(data[1..])
      case Some(i) => Some(i + 1)
      case None => None
  }

  /** What lies between empty lines, and what is left at the end. */
  function Tokens(data: string): seq<string>
    decreases |data|
  {
    if data == "" then []
    else match Blank(data)
      case Some(i) => [data[..i]] + Tokens(data[i + 2..])
      case None => [data]
  }

  /** strings.Split at newlines. */
  function Split(s: string): (lines: seq<string>)
    ensures lines != []
  {
    if s == "" then [""]
    else if s[0] == '\n' then [""] + Split(s[1..])
    else [[s[0]] + Split(s[1..])[0]] + Split(s[1..])[1..]
  }

  // ----- Reading

  /** A value by its type line; nothing for a type that does not exist, which ends the process. */
  function ReadValue(kind: string, text: string): Option<Value> {
    if kind == "T" then Some(Time(Atoi(text), 0))
    else if kind == "I" then Some(GoInt(Atoi(text)))
    else if kind == "O" then Some(Octets(FromHex(text)))
    else if kind == "S" then Some(Text(text))
    else None
  }

  /** Three lines at a time, at least once. Nothing when lines are missing, which ends the process. */
  function Parse(lines: seq<string>, fields: Cdr): Option<Cdr>
    decreases |lines|
  {
    if |lines| < 3 then None
    else match ReadValue(lines[1], lines[2])
      case None => None
      case Some(v) =>
        if |lines| == 3 then Some(fields[lines[0] := v]) else Parse(lines[3..], fields[lines[0] := v])
  }

  function ParseAll(tokens: seq<string>): Option<seq<Cdr>> {
    if tokens == [] then Some([])
    else match (Parse(Split(tokens[0]), map[]), ParseAll(tokens[1..]))
      case (Some(cdr), Some(more)) => Some([cdr] + more)
      case (None, _) => None
      case (Some(_), None) => None
  }

  function ReadBack(data: string): Option<seq<Cdr>> {
    ParseAll(Tokens(data))
  }

  /** What a value comes back as: a time to the second, a number as a Go int. */
  function Back(v: Value): Value {
    match v
    case Time(seconds, _) => Time(seconds, 0)
    case Integer(i) => GoInt(i)
    case Octets(_) => v
    case Text(_) => v
    case GoInt(_) => v
    case Other => v
  }

  function CdrBack(cdr: Cdr): Cdr {
    map name | name in cdr :: Back(cdr[name])
  }

  function AllBack(cdrs: seq<Cdr>): seq<Cdr> {
    seq(|cdrs|, i requires 0 <= i < |cdrs| => CdrBack(cdrs[i]))
  }

  // ----- Lines and their text

  predicate Plain(s: string) {
    '\n' !in s
  }

  /** Lines without newlines and not empty. */
  predicate Solid(lines: seq<string>) {
    forall l :: l in lines ==> Plain(l) && l != ""
  }

  /** Lines with a newline between each two. */
  function Join(lines: seq<string>): string
    requires lines != []
  {
    if |lines| == 1 then lines[0] else lines[0] + "\n" + Join(lines[1..])
  }

  lemma {:induction false} UnlinesJoins(lines: seq<string>)
    requires lines != []
    ensures Unlines(lines) == Join(lines) + "\n"
  {
    if |lines| == 1 {
      assert Unlines(lines[1..]) == "";
    } else {
      UnlinesJoins(lines[1..]);
    }
  }

  lemma {:induction false} UnlinesConcat(a: seq<string>, b: seq<string>)
    ensures Unlines(a + b) == Unlines(a) + Unlines(b)
  {
    if a == [] {
      assert a + b == b;
    } else {
      assert (a + b)[1..] == a[1..] + b;
      UnlinesConcat(a[1..], b);
    }
  }

  lemma {:induction false} SplitLine(l: string, more: string)
    requires Plain(l)
    ensures Split(l) == [l] && Split(l + "\n" + more) == [l] + Split(more)
  {
    if l == "" {
      assert l + "\n" + more == "\n" + more;
      assert ("\n" + more)[1..] == more;
    } else {
      SplitLine(l[1..], more);
      assert (l + "\n" + more)[1..] == l[1..] + "\n" + more;
      assert l == [l[0]] + l[1..];
    }
  }

  lemma {:induction false} SplitUndoesJoin(lines: seq<string>)
    requires lines != [] && forall l :: l in lines ==> Plain(l)
    ensures Split(Join(lines)) == lines
  {
    if |lines| == 1 {
      SplitLine(lines[0], "");
    } else {
      SplitUndoesJoin(lines[1..]);
      SplitLine(lines[0], Join(lines[1..]));
      assert lines == [lines[0]] + lines[1..];
    }
  }

  lemma {:induction false} SplitIsPlain(s: string)
    ensures forall l :: l in Split(s) ==> Plain(l)
  {
    if s != "" {
      SplitIsPlain(s[1..]);
      var more := Split(s[1..]);
      assert more[0] in more && forall l :: l in more[1..] ==> l in more;
    }
  }

  // ----- The first empty line

  /** There are no two newlines next to each other. */
  predicate Dense(s: string) {
    forall i :: 0 <= i < |s| - 1 ==> !(s[i] == '\n' && s[i + 1] == '\n')
  }

  lemma {:induction false} BlankIsFirst(a: string, rest: string)
    requires Dense(a + "\n")
    ensures Blank(a + "\n\n" + rest) == Some(|a|)
  {
    var data := a + "\n\n" + rest;
    if a != "" {
      assert Dense(a[1..] + "\n") by {
        var s, t := a + "\n", a[1..] + "\n";
        forall i | 0 <= i < |t| - 1 ensures !(t[i] == '\n' && t[i + 1] == '\n') {
          assert s[i + 1] == t[i] && s[i + 2] == t[i + 1];
        }
      }
      BlankIsFirst(a[1..], rest);
      assert data[1..] == a[1..] + "\n\n" + rest;
      assert (a + "\n")[0] == data[0] && (a + "\n")[1] == data[1];
    }
  }

  lemma {:induction false} SolidIsDense(lines: seq<string>)
    requires lines != [] && Solid(lines)
    ensures Dense(Join(lines) + "\n") && Join(lines) != "" && Join(lines)[0] != '\n'
  {
    var l := lines[0];
    assert l in lines;
    assert Join(lines)[..|l|] == l && l[0] in l;
    if |lines| == 1 {
      var s := l + "\n";
      forall i | 0 <= i < |s| - 1 ensures s[i] != '\n' {
        assert s[i] in l;
      }
    } else {
      var more := Join(lines[1..]);
      SolidIsDense(lines[1..]);
      var s, t := Join(lines) + "\n", more + "\n";
      assert s == l + "\n" + t;
      forall i | 0 <= i < |s| - 1 ensures !(s[i] == '\n' && s[i + 1] == '\n') {
        if i < |l| {
          assert s[i] in l;
        } else if i == |l| {
          assert s[i + 1] == t[0] == more[0];
        } else {
          assert s[i] == t[i - |l| - 1] && s[i + 1] == t[i - |l|];
        }
      }
    }
  }

  /** Solid lines before an empty one are one token, whatever follows. */
  lemma SolidToken(lines: seq<string>, rest: string)
    requires lines != [] && Solid(lines)
    ensures Tokens(Unlines(lines) + "\n" + rest) == [Join(lines)] + Tokens(rest)
    ensures Split(Join(lines)) == lines
  {
    var data := Unlines(lines) + "\n" + rest;
    UnlinesJoins(lines);
    assert data == Join(lines) + "\n\n" + rest;
    SolidIsDense(lines);
    BlankIsFirst(Join(lines), rest);
    assert data[..|Join(lines)|] == Join(lines) && data[|Join(lines)| + 2..] == rest;
    SplitUndoesJoin(lines);
  }
}
