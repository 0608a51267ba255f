/** The records of a backup file come back exactly when every field has a name and a value that its text can hold. */
module CdrTheorems {
  import opened Common
  import opened Decimal
  import opened CdrText

  /** Of the four kinds, with a text that is neither empty nor broken over lines. */
  predicate ProperValue(v: Value) {
    Printable(v) && ValueText(v) != "" && Plain(ValueText(v))
  }

  predicate ProperCdr(cdr: Cdr) {
    cdr != map[] && forall name :: name in cdr ==> Plain(name) && ProperValue(cdr[name])
  }

  predicate Named(cdr: Cdr) {
    "" !in cdr
  }

  /** No newline where a text could hold one. */
  predicate PlainCdr(cdr: Cdr) {
    forall name :: name in cdr ==> Plain(name) && (cdr[name].Text? ==> Plain(cdr[name].text))
  }

  // ----- One field, one record

  lemma ValueComesBack(v: Value)
    requires Printable(v)
    ensures ReadValue(Kind(v), ValueText(v)) == Some(Back(v))
  {
    match v
    case Time(seconds, _) => AtoiUndoesFormatInt(seconds);
    case Integer(i) => AtoiUndoesFormatInt(i);
    case Octets(bytes) => FromHexUndoesHex(bytes);
    case Text(_) =>
  }

  lemma KindsDiffer(v: Value)
    requires Printable(v)
    ensures Kind(v) != "" && Plain(Kind(v))
    ensures v.Time? || v.Integer? ==> ValueText(v) != "" && Plain(ValueText(v))
    ensures v.Octets? ==> Plain(ValueText(v))
  {
    match v
    case Time(seconds, _) => AtoiUndoesFormatInt(seconds);
    case Integer(i) => AtoiUndoesFormatInt(i);
    case Octets(bytes) => FromHexUndoesHex(bytes);
    case Text(_) =>
  }

  /** The fields of an order added one after the other, as they come back. */
  function Added(fields: Cdr, cdr: Cdr, order: seq<string>): Cdr
    requires forall name :: name in order ==> name in cdr
    decreases |order|
  {
    if order == [] then fields else Added(fields[order[0] := Back(cdr[order[0]])], cdr, order[1..])
  }

  lemma {:induction false} ParseUndoesLines(fields: Cdr, cdr: Cdr, order: seq<string>)
    requires order != [] && forall name :: name in order ==> name in cdr && Printable(cdr[name])
    ensures Parse(CdrLines(cdr, order), fields) == Some(Added(fields, cdr, order))
    ensures |CdrLines(cdr, order)| == 3 * |order|
    decreases |order|
  {
    var name, v, more := order[0], cdr[order[0]], order[1..];
    var lines := CdrLines(cdr, order);
    ValueComesBack(v);
    assert lines[0] == name && lines[1] == Kind(v) && lines[2] == ValueText(v) && lines[3..] == CdrLines(cdr, more);
    if more != [] {
      ParseUndoesLines(fields[name := Back(v)], cdr, more);
    }
  }

  lemma {:induction false} AddedHasAll(fields: Cdr, cdr: Cdr, order: seq<string>)
    requires forall name :: name in order ==> name in cdr
    requires forall i, j :: 0 <= i < j < |order| ==> order[i] != order[j]
    ensures forall name :: name in Added(fields, cdr, order) <==> name in order || name in fields
    ensures forall name :: name in Added(fields, cdr, order) ==>
      Added(fields, cdr, order)[name] == if name in order then Back(cdr[name]) else fields[name]
    decreases |order|
  {
    if order != [] {
      var more := order[1..];
      assert forall name :: name in order <==> name == order[0] || name in more;
      assert order[0] !in more;
      AddedHasAll(fields[order[0] := Back(cdr[order[0]])], cdr, more);
    }
  }

  lemma AddedIsBack(cdr: Cdr, order: seq<string>)
    requires IsOrder(cdr, order)
    ensures Added(map[], cdr, order) == CdrBack(cdr)
  {
    AddedHasAll(map[], cdr, order);
  }

  lemma {:induction false} ProperLinesAreSolid(cdr: Cdr, order: seq<string>)
    requires forall name :: name in order ==> name in cdr && name != "" && Plain(name) && ProperValue(cdr[name])
    ensures Solid(CdrLines(cdr, order))
  {
    if order != [] {
      KindsDiffer(cdr[order[0]]);
      ProperLinesAreSolid(cdr, order[1..]);
    }
  }

  /** A proper record is one token, and the token parses into the record. */
  lemma ProperRecordComesBack(cdr: Cdr, order: seq<string>, rest: string)
    requires ProperCdr(cdr) && Named(cdr) && IsOrder(cdr, order)
    ensures Tokens(CdrString(cdr, order) + rest) == [Join(CdrLines(cdr, order))] + Tokens(rest)
    ensures Parse(Split(Join(CdrLines(cdr, order))), map[]) == Some(CdrBack(cdr))
  {
    var lines := CdrLines(cdr, order);
    assert order != [] by {
      var name :| name in cdr;
      assert name in order;
    }
    ProperLinesAreSolid(cdr, order);
    ParseUndoesLines(map[], cdr, order);
    SolidToken(lines, rest);
    assert CdrString(cdr, order) + rest == Unlines(lines) + "\n" + rest;
    AddedIsBack(cdr, order);
  }

  lemma TwoOrThreeLines(a: string, b: string, c: string)
    ensures Unlines([a, b]) == a + "\n" + b + "\n" && Unlines([a, b, c]) == a + "\n" + b + "\n" + c + "\n"
  {
    assert [c][1..] == [] && [b, c][1..] == [c] && [a, b, c][1..] == [b, c] && [b][1..] == [] && [a, b][1..] == [b];
    assert Unlines([c]) == c + "\n" + "" == c + "\n" && Unlines([b]) == b + "\n" + "" == b + "\n";
    assert Unlines([b, c]) == b + "\n" + (c + "\n");
  }

  lemma RestOfFile(cdr: Cdr, order: seq<string>)
    requires order != [] && forall name :: name in order ==> name in cdr
    ensures CdrString(cdr, order) == Unlines(FieldLines(order[0], cdr[order[0]])) + CdrString(cdr, order[1..])
  {
    UnlinesConcat(FieldLines(order[0], cdr[order[0]]), CdrLines(cdr, order[1..]));
  }

  /** A field in the file: a line with its name, a line with a letter for its type, a line with its value. */
  lemma FieldInFile(cdr: Cdr, order: seq<string>)
    requires order != [] && forall name :: name in order ==> name in cdr
    ensures var name, v := order[0], cdr[order[0]];
      var lines := match v
        case Time(seconds, _) => name + "\n" + "T" + "\n" + FormatInt(seconds) + "\n"
        case Integer(i) => name + "\n" + "I" + "\n" + FormatInt(i) + "\n"
        case Octets(bytes) => name + "\n" + "O" + "\n" + Hex(bytes) + "\n"
        case Text(text) => name + "\n" + "S" + "\n" + text + "\n"
        case _ => name + "\n" + "" + "\n";
      CdrString(cdr, order) == lines + CdrString(cdr, order[1..])
    ensures CdrString(cdr, []) == "\n"
  {
    var name, v := order[0], cdr[order[0]];
    RestOfFile(cdr, order);
    if Printable(v) {
      TwoOrThreeLines(name, Kind(v), ValueText(v));
    } else {
      TwoOrThreeLines(name, "", "");
    }
  }

  // ----- Records that are not proper

  /** Parsing gives up unless there are three lines for each field, and takes the first line for a name. */
  lemma {:induction false} ParseTakesThreeLines(lines: seq<string>, fields: Cdr)
    ensures Parse(lines, fields).Some? ==>
      |lines| % 3 == 0 && |lines| > 0 && lines[0] in Parse(lines, fields).value
      && fields.Keys <= Parse(lines, fields).value.Keys
    decreases |lines|
  {
    if |lines| > 3 && ReadValue(lines[1], lines[2]).Some? {
      ParseTakesThreeLines(lines[3..], fields[lines[0] := ReadValue(lines[1], lines[2]).value]);
    }
  }

  /**
   The lines up to the first field that is not proper, as they are before their empty line: not three for each field.
   */
  lemma {:induction false} LinesBreakOff(cdr: Cdr, order: seq<string>) returns (before: seq<string>, after: seq<string>)
    requires forall name :: name in order ==> name in cdr && name != ""
    requires PlainCdr(cdr) && exists name :: name in order && !ProperValue(cdr[name])
    ensures CdrLines(cdr, order) == before + [""] + after
    ensures Solid(before) && before != [] && |before| % 3 != 0
  {
    var name, v, more := order[0], cdr[order[0]], order[1..];
    if !Printable(v) {
      before, after := [name], CdrLines(cdr, more);
    } else if ValueText(v) == "" {
      KindsDiffer(v);
      before, after := [name, Kind(v)], CdrLines(cdr, more);
      assert CdrLines(cdr, order) == before + [""] + after;
    } else {
      KindsDiffer(v);
      var b, a := LinesBreakOff(cdr, more);
      before, after := FieldLines(name, v) + b, a;
      assert CdrLines(cdr, order) == before + [""] + after;
    }
  }

  /** A value that its text cannot hold ends the process when its token is parsed. */
  lemma ImproperValueEndsParse(cdr: Cdr, order: seq<string>, rest: string)
    requires PlainCdr(cdr) && Named(cdr) && IsOrder(cdr, order) && exists name :: name in cdr && !ProperValue(cdr[name])
    ensures ReadBack(CdrString(cdr, order) + rest).None?
  {
    var name :| name in cdr && !ProperValue(cdr[name]);
    assert name in order;
    var before, after := LinesBreakOff(cdr, order);
    UnlinesConcat(before + [""], after);
    UnlinesConcat(before, [""]);
    assert Unlines([""]) == "\n";
    var tail := Unlines(after) + "\n" + rest;
    assert CdrString(cdr, order) + rest == Unlines(before) + "\n" + tail;
    SolidToken(before, tail);
    ParseTakesThreeLines(before, map[]);
  }

  /** A record without fields is an empty line too many: the process ends, or a field without a name appears. */
  lemma EmptyRecordIsSeen(rest: string)
    ensures var read := ReadBack("\n" + rest); read.Some? ==> read.value != [] && "" in read.value[0]
  {
    var data := "\n" + rest;
    var token := Tokens(data)[0];
    if token != "" {
      assert token[0] == '\n';
      ParseTakesThreeLines(Split(token), map[]);
    } else {
      assert Split(token) == [""];
    }
  }

  // ----- Newlines

  predicate PlainFields(fields: Cdr) {
    forall name :: name in fields ==> Plain(name) && (fields[name].Text? ==> Plain(fields[name].text))
  }

  lemma {:induction false} ParseIsPlain(lines: seq<string>, fields: Cdr)
    requires (forall l :: l in lines ==> Plain(l)) && PlainFields(fields)
    ensures Parse(lines, fields).Some? ==> PlainFields(Parse(lines, fields).value)
    decreases |lines|
  {
    if |lines| >= 3 && ReadValue(lines[1], lines[2]).Some? {
      var v := ReadValue(lines[1], lines[2]).value;
      assert PlainFields(fields[lines[0] := v]);
      if |lines| > 3 {
        ParseIsPlain(lines[3..], fields[lines[0] := v]);
      }
    }
  }

  /** What is read has no newlines in names and texts, so what was written with one does not come back. */
  lemma {:induction false} ReadIsPlain(tokens: seq<string>)
    ensures ParseAll(tokens).Some? ==> forall cdr :: cdr in ParseAll(tokens).value ==> PlainFields(cdr)
  {
    if tokens != [] {
      ReadIsPlain(tokens[1..]);
      SplitIsPlain(tokens[0]);
      ParseIsPlain(Split(tokens[0]), map[]);
    }
  }

  lemma BackIsPlainIff(cdr: Cdr)
    ensures PlainFields(CdrBack(cdr)) <==> PlainCdr(cdr)
  {
    assert forall name :: name in cdr ==> CdrBack(cdr)[name] == Back(cdr[name]);
    forall v: Value ensures Back(v).Text? <==> v.Text? {
    }
  }

  // ----- The file

  ghost predicate Proper(cdrs: seq<Cdr>) {
    forall cdr :: cdr in cdrs ==> ProperCdr(cdr)
  }

  lemma FileOfMore(cdrs: seq<Cdr>, orders: seq<seq<string>>)
    requires cdrs != [] && AreOrders(cdrs, orders)
    ensures AreOrders(cdrs[1..], orders[1..])
    ensures File(cdrs, orders) == CdrString(cdrs[0], orders[0]) + File(cdrs[1..], orders[1..])
    ensures AllBack(cdrs) == [CdrBack(cdrs[0])] + AllBack(cdrs[1..])
  {
  }

  /** A first record that is not proper spoils the reading of the file. */
  lemma FirstSpoils(cdr: Cdr, order: seq<string>, rest: string, more: seq<Cdr>)
    requires !ProperCdr(cdr) && Named(cdr) && PlainCdr(cdr) && IsOrder(cdr, order)
    ensures ReadBack(CdrString(cdr, order) + rest) != Some([CdrBack(cdr)] + more)
  {
    if cdr == map[] {
      assert forall i :: 0 <= i < |order| ==> order[i] in cdr;
      assert CdrString(cdr, order) == "\n" by { assert Unlines([]) == ""; }
      EmptyRecordIsSeen(rest);
      assert "" !in CdrBack(cdr);
    } else {
      ImproperValueEndsParse(cdr, order, rest);
    }
  }

  /** Among records without newlines, the first that is not proper spoils the reading; if all are, they come back. */
  lemma {:induction false} PlainFileComesBackIff(cdrs: seq<Cdr>, orders: seq<seq<string>>)
    requires AreOrders(cdrs, orders) && forall cdr :: cdr in cdrs ==> Named(cdr) && PlainCdr(cdr)
    ensures ReadBack(File(cdrs, orders)) == Some(AllBack(cdrs)) <==> Proper(cdrs)
    decreases |cdrs|
  {
    if cdrs != [] {
      var cdr, order, rest := cdrs[0], orders[0], File(cdrs[1..], orders[1..]);
      FileOfMore(cdrs, orders);
      assert forall c :: c in cdrs <==> c == cdr || c in cdrs[1..];
      if ProperCdr(cdr) {
        ProperRecordComesBack(cdr, order, rest);
        PlainFileComesBackIff(cdrs[1..], orders[1..]);
        FirstComesBack(File(cdrs, orders), Join(CdrLines(cdr, order)), rest, cdr, cdrs[1..]);
      } else {
        FirstSpoils(cdr, order, rest, AllBack(cdrs[1..]));
      }
    } else {
      assert AllBack(cdrs) == [] && File(cdrs, orders) == "";
    }
  }

  lemma FirstComesBack(data: string, token: string, rest: string, cdr: Cdr, more: seq<Cdr>)
    requires Tokens(data) == [token] + Tokens(rest) && Parse(Split(token), map[]) == Some(CdrBack(cdr))
    ensures ReadBack(data) == Some([CdrBack(cdr)] + AllBack(more)) <==> ReadBack(rest) == Some(AllBack(more))
  {
    assert Tokens(data)[1..] == Tokens(rest);
    if ReadBack(data) == Some([CdrBack(cdr)] + AllBack(more)) {
      assert ReadBack(data).value[1..] == AllBack(more);
    }
  }

  /**
   Whatever the order in which each map is gone through, the records of a file come back, times to the second and
   numbers as Go ints, exactly when none is empty and every value is of the four kinds with a text that is not empty
   and, like the names, has no newline.
   */
  lemma FileComesBackIff(cdrs: seq<Cdr>, orders: seq<seq<string>>)
    requires AreOrders(cdrs, orders) && forall cdr :: cdr in cdrs ==> Named(cdr)
    ensures ReadBack(File(cdrs, orders)) == Some(AllBack(cdrs)) <==> Proper(cdrs)
  {
    if forall cdr :: cdr in cdrs ==> PlainCdr(cdr) {
      PlainFileComesBackIff(cdrs, orders);
    } else {
      var i :| 0 <= i < |cdrs| && !PlainCdr(cdrs[i]);
      ReadIsPlain(Tokens(File(cdrs, orders)));
      BackIsPlainIff(cdrs[i]);
      assert AllBack(cdrs)[i] == CdrBack(cdrs[i]);
      assert !ProperCdr(cdrs[i]);
    }
  }

  /** What came back cannot be written again: numbers are no longer of a kind the printer knows. */
  lemma NumbersCannotBeWrittenAgain(cdr: Cdr, order: seq<string>, name: string)
    requires PlainCdr(cdr) && Named(cdr) && name in cdr && cdr[name].Integer? && IsOrder(CdrBack(cdr), order)
    ensures ReadBack(CdrString(CdrBack(cdr), order)).None?
  {
    var back := CdrBack(cdr);
    BackIsPlainIff(cdr);
    assert name in back && back[name].GoInt?;
    ImproperValueEndsParse(back, order, "");
    assert CdrString(back, order) + "" == CdrString(back, order);
  }
}
