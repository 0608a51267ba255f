/**
 Backups of call detail records as the program writes and reads them: builders, a scanner fed in chunks, and an index
 over lines.
 */
module CdrWriter {
  import opened Common
  import opened Decimal
  import opened CdrText
  import opened CdrTheorems

  // ----- Printing

  lemma {:induction false} CdrLinesAppend(cdr: Cdr, order: seq<string>, name: string)
    requires (forall n :: n in order ==> n in cdr) && name in cdr
    ensures CdrLines(cdr, order + [name]) == CdrLines(cdr, order) + FieldLines(name, cdr[name])
  {
    if order == [] {
      assert [] + [name] == [name];
      assert CdrLines(cdr, [name][1..]) == [];
    } else {
      assert (order + [name])[1..] == order[1..] + [name];
      CdrLinesAppend(cdr, order[1..], name);
    }
  }

  lemma UnlinesOfField(name: string, v: Value)
    ensures Unlines(FieldLines(name, v)) ==
      if Printable(v) then name + "\n" + (Kind(v) + "\n" + ValueText(v)) + "\n" else name + "\n" + "\n"
  {
    if Printable(v) {
      assert FieldLines(name, v) == [name] + ([Kind(v)] + [ValueText(v)]);
      UnlinesConcat([name], [Kind(v)] + [ValueText(v)]);
      UnlinesConcat([Kind(v)], [ValueText(v)]);
      assert Unlines([name]) == name + "\n" && Unlines([Kind(v)]) == Kind(v) + "\n";
      assert Unlines([ValueText(v)]) == ValueText(v) + "\n";
    } else {
      assert FieldLines(name, v) == [name] + [""];
      UnlinesConcat([name], [""]);
      assert Unlines([name]) == name + "\n" && Unlines([""]) == "\n";
    }
  }

  /** Goes through the map in some order and writes each field, trying its type: time, number, octets, text. */
  method Print(cdr: Cdr) returns (sb: string, ghost order: seq<string>)
    ensures IsOrder(cdr, order) && sb == CdrString(cdr, order)
  {
    sb, order := "", [];
    var left := cdr.Keys;
    while left != {}
      invariant left <= cdr.Keys
      invariant forall name :: name in order <==> name in cdr.Keys - left
      invariant forall i, j :: 0 <= i < j < |order| ==> order[i] != order[j]
      invariant sb == Unlines(CdrLines(cdr, order))
    {
      var k :| k in left;
      var v := cdr[k];
      ghost var before := sb;
      CdrLinesAppend(cdr, order, k);
      UnlinesConcat(CdrLines(cdr, order), FieldLines(k, v));
      UnlinesOfField(k, v);
      var field := k + "\n";
      assert k !in order;
      match v {
        case Time(seconds, _) => field := field + ("T" + "\n" + FormatInt(seconds));
        case Integer(i) => field := field + ("I" + "\n" + FormatInt(i));
        case Octets(bytes) => field := field + ("O" + "\n" + Hex(bytes));
        case Text(text) => field := field + ("S" + "\n" + text);
        case GoInt(_) =>
        case Other =>
      }
      sb := sb + (field + "\n");
      order, left := order + [k], left - {k};
    }
    sb := sb + "\n";
  }

  /** Appends records to a backup file. */
  method Backup(cdrs: seq<Cdr>) returns (file: string, ghost orders: seq<seq<string>>)
    ensures AreOrders(cdrs, orders) && file == File(cdrs, orders)
  {
    file, orders := "", [];
    for i := 0 to |cdrs|
      invariant AreOrders(cdrs[..i], orders) && file == File(cdrs[..i], orders)
    {
      var s, order := Print(cdrs[i]);
      FileAppend(cdrs[..i], orders, cdrs[i], order);
      assert cdrs[..i + 1] == cdrs[..i] + [cdrs[i]];
      file, orders := file + s, orders + [order];
    }
    assert cdrs[..|cdrs|] == cdrs;
  }

  lemma FileOfOne(cdr: Cdr, order: seq<string>)
    requires IsOrder(cdr, order)
    ensures AreOrders([cdr], [order]) && File([cdr], [order]) == CdrString(cdr, order)
  {
    assert [cdr][1..] == [] && [order][1..] == [];
  }

  lemma {:induction false} FileAppend(cdrs: seq<Cdr>, orders: seq<seq<string>>, cdr: Cdr, order: seq<string>)
    requires AreOrders(cdrs, orders) && IsOrder(cdr, order)
    ensures AreOrders(cdrs + [cdr], orders + [order])
    ensures File(cdrs + [cdr], orders + [order]) == File(cdrs, orders) + CdrString(cdr, order)
    decreases |cdrs|
  {
    if cdrs == [] {
      assert [] + [cdr] == [cdr] && [] + [order] == [order];
      FileOfOne(cdr, order);
    } else {
      FileAppend(cdrs[1..], orders[1..], cdr, order);
      assert (cdrs + [cdr])[1..] == cdrs[1..] + [cdr] && (orders + [order])[1..] == orders[1..] + [order];
    }
  }

  // ----- Scanning

  function Concat(chunks: seq<string>): string {
    if chunks == [] then "" else chunks[0] + Concat(chunks[1..])
  }

  lemma {:induction false} BlankStays(data: string, more: string)
    ensures Blank(data).Some? ==> Blank(data + more) == Blank(data)
  {
    if |data| >= 2 {
      BlankStays(data[1..], more);
      assert (data + more)[1..] == data[1..] + more;
    }
  }

  /** The index of the first empty line. */
  method Index(data: string) returns (i: int)
    ensures Blank(data) == if i < 0 then None else Some(i)
  {
    i := 0;
    while i + 1 < |data|
      invariant 0 <= i <= |data|
      invariant Blank(data) == match Blank(data[i..]) { case Some(j) => Some(i + j) case None => None }
    {
      if data[i] == '\n' && data[i + 1] == '\n' {
        return;
      }
      assert data[i..][1..] == data[i + 1..];
      i := i + 1;
    }
    i := -1;
  }

  /** The splitter: how far to advance and the token, or nothing to ask for more data. */
  method SplitAt(data: string, atEOF: bool) returns (advance: nat, token: Option<string>)
    ensures Blank(data).Some? ==> token == Some(data[..Blank(data).value]) && advance == Blank(data).value + 2
    ensures Blank(data).None? && atEOF && data != "" ==> token == Some(data) && advance == |data|
    ensures Blank(data).None? && (!atEOF || data == "") ==> token.None? && advance == 0
  {
    var dataLen := |data|;
    if atEOF && dataLen == 0 {
      return 0, None;
    }
    var i := Index(data);
    if i >= 0 {
      return i + 2, Some(data[..i]);
    }
    if atEOF {
      return dataLen, Some(data);
    }
    return 0, None;
  }

  lemma TokenFound(buffer: string, more: string)
    requires Blank(buffer).Some?
    ensures Tokens(buffer + more) == [buffer[..Blank(buffer).value]] + Tokens(buffer[Blank(buffer).value + 2..] + more)
  {
    var i := Blank(buffer).value;
    BlankStays(buffer, more);
    assert (buffer + more)[..i] == buffer[..i] && (buffer + more)[i + 2..] == buffer[i + 2..] + more;
  }

  /** What is still to come: the buffer, and the chunks not yet read. */
  function Pending(buffer: string, chunks: seq<string>, i: nat): string
    requires i <= |chunks|
  {
    buffer + Concat(chunks[i..])
  }

  lemma ChunkRead(buffer: string, chunks: seq<string>, i: nat)
    requires i < |chunks|
    ensures Pending(buffer + chunks[i], chunks, i + 1) == Pending(buffer, chunks, i)
  {
    assert chunks[i..][1..] == chunks[i + 1..];
  }

  lemma NothingPending(buffer: string, chunks: seq<string>)
    ensures Pending(buffer, chunks, |chunks|) == buffer
  {
    assert chunks[|chunks|..] == [];
  }

  lemma LastToken(buffer: string, chunks: seq<string>)
    requires Blank(buffer).None? && buffer != ""
    ensures Tokens(Pending(buffer, chunks, |chunks|)) ==
            [buffer] + Tokens(Pending(buffer[|buffer|..], chunks, |chunks|))
  {
    NothingPending(buffer, chunks);
    NothingPending(buffer[|buffer|..], chunks);
  }

  /** One call of the splitter takes the first token off what is pending. */
  method NextToken(buffer: string, atEOF: bool, chunks: seq<string>, i: nat)
      returns (advance: nat, token: Option<string>)
    requires i <= |chunks| && (atEOF ==> i == |chunks|)
    ensures token.Some? ==> 0 < advance <= |buffer|
    ensures token.Some? ==>
              Tokens(Pending(buffer, chunks, i)) == [token.value] + Tokens(Pending(buffer[advance..], chunks, i))
    ensures token.None? && atEOF ==> Tokens(Pending(buffer, chunks, i)) == []
  {
    advance, token := SplitAt(buffer, atEOF);
    if Blank(buffer).Some? {
      TokenFound(buffer, Concat(chunks[i..]));
    } else if token.Some? {
      LastToken(buffer, chunks);
    } else if atEOF {
      NothingPending(buffer, chunks);
    }
  }

  /** The scanner over a file read in chunks: whatever the chunks, the tokens are those of the whole. */
  method ScanAll(chunks: seq<string>) returns (tokens: seq<string>)
    ensures tokens == Tokens(Concat(chunks))
  {
    tokens := [];
    var buffer, i, atEOF := "", 0, false;
    assert Pending(buffer, chunks, i) == Concat(chunks) by { assert chunks[0..] == chunks; }
    while true
      invariant i <= |chunks| && (atEOF ==> i == |chunks|)
      invariant tokens + Tokens(Pending(buffer, chunks, i)) == Tokens(Concat(chunks))
      decreases |Pending(buffer, chunks, i)|, |chunks| - i, if atEOF then 0 else 1
    {
      var advance, token := NextToken(buffer, atEOF, chunks, i);
      if token.Some? {
        Regroup(tokens, [token.value], Tokens(Pending(buffer[advance..], chunks, i)));
        tokens := tokens + [token.value];
        buffer := buffer[advance..];
      } else if atEOF {
        assert tokens + [] == tokens;
        return;
      } else if i == |chunks| {
        atEOF := true;
      } else {
        ChunkRead(buffer, chunks, i);
        buffer, i := buffer + chunks[i], i + 1;
      }
    }
  }

  // ----- Parsing

  /** Three lines at a time with an index that goes from name to type to value; nothing where the process ends. */
  method NewWritableCdrFromStrings(lines: seq<string>) returns (cdr: Option<Cdr>)
    ensures cdr == Parse(lines, map[])
  {
    var fields: Cdr := map[];
    var i := 0;
    while true
      invariant i <= |lines| && (i > 0 ==> i < |lines|)
      invariant Parse(lines[i..], fields) == Parse(lines, map[])
      decreases |lines| - i
    {
      ghost var left, before := lines[i..], fields;
      if |lines| < i + 3 {
        return None;
      }
      assert left[0] == lines[i] && left[1] == lines[i + 1] && left[2] == lines[i + 2] && left[3..] == lines[i + 3..];
      var attrName := lines[i];
      i := i + 1;
      if lines[i] == "T" {
        i := i + 1;
        fields := fields[attrName := Time(Atoi(lines[i]), 0)];
      } else if lines[i] == "I" {
        i := i + 1;
        fields := fields[attrName := GoInt(Atoi(lines[i]))];
      } else if lines[i] == "O" {
        i := i + 1;
        fields := fields[attrName := Octets(FromHex(lines[i]))];
      } else if lines[i] == "S" {
        i := i + 1;
        fields := fields[attrName := Text(lines[i])];
      } else {
        return None;
      }
      i := i + 1;
      if i >= |lines| {
        break;
      }
    }
    cdr := Some(fields);
  }

  /** strings.Split at newlines, by a loop. */
  method SplitLines(s: string) returns (lines: seq<string>)
    ensures lines == Split(s)
  {
    lines := [""];
    var i := |s|;
    while i > 0
      invariant 0 <= i <= |s| && lines == Split(s[i..])
    {
      i := i - 1;
      assert s[i..][1..] == s[i + 1..];
      lines := if s[i] == '\n' then [""] + lines else [[s[i]] + lines[0]] + lines[1..];
    }
    assert s[0..] == s;
  }

  lemma {:induction false} ParseAllAppend(tokens: seq<string>, token: string)
    ensures ParseAll(tokens + [token]) ==
      match (ParseAll(tokens), Parse(Split(token), map[]))
      case (Some(cdrs), Some(cdr)) => Some(cdrs + [cdr])
      case (None, _) => None
      case (Some(_), None) => None
  {
    if tokens == [] {
      assert [] + [token] == [token];
      assert [token][1..] == [] && ParseAll([token][1..]) == Some([]);
      if Parse(Split(token), map[]).Some? {
        var cdr := Parse(Split(token), map[]).value;
        assert [cdr] + [] == [] + [cdr];
      }
    } else {
      assert (tokens + [token])[1..] == tokens[1..] + [token];
      ParseAllAppend(tokens[1..], token);
      if Parse(Split(tokens[0]), map[]).Some? && ParseAll(tokens[1..]).Some? && Parse(Split(token), map[]).Some? {
        var first, more := Parse(Split(tokens[0]), map[]).value, ParseAll(tokens[1..]).value;
        var last := Parse(Split(token), map[]).value;
        assert [first] + (more + [last]) == [first] + more + [last];
      }
    }
  }

  lemma {:induction false} ParseAllFails(tokens: seq<string>, i: nat)
    requires i <= |tokens| && ParseAll(tokens[..i]).None?
    ensures ParseAll(tokens).None?
    decreases |tokens|
  {
    if i > 0 && Parse(Split(tokens[0]), map[]).Some? {
      assert tokens[..i][1..] == tokens[1..][..i - 1];
      ParseAllFails(tokens[1..], i - 1);
    }
  }

  /** The batch of records of a backup file read in chunks; nothing where the process ends. */
  method ProcessBackupFile(chunks: seq<string>) returns (batch: Option<seq<Cdr>>)
    ensures batch == ReadBack(Concat(chunks))
  {
    var tokens := ScanAll(chunks);
    var cdrs := [];
    for i := 0 to |tokens|
      invariant ParseAll(tokens[..i]) == Some(cdrs)
    {
      assert tokens[..i + 1] == tokens[..i] + [tokens[i]];
      ParseAllAppend(tokens[..i], tokens[i]);
      var lines := SplitLines(tokens[i]);
      var cdr := NewWritableCdrFromStrings(lines);
      if cdr.None? {
        ParseAllFails(tokens, i + 1);
        return None;
      }
      cdrs := cdrs + [cdr.value];
    }
    assert tokens[..|tokens|] == tokens;
    batch := Some(cdrs);
  }

  /**
   What a backup gives back, however its file is read: the records as they were, exactly if all of them are proper.
   */
  method BackupAndProcess(cdrs: seq<Cdr>, cuts: seq<nat>) returns (batch: Option<seq<Cdr>>)
    requires forall cdr :: cdr in cdrs ==> Named(cdr)
    ensures batch == Some(AllBack(cdrs)) <==> Proper(cdrs)
  {
    var file, orders := Backup(cdrs);
    var chunks := Chunked(file, cuts);
    batch := ProcessBackupFile(chunks);
    FileComesBackIff(cdrs, orders);
  }

  /** A file in chunks of the given sizes, the rest in one. */
  function Chunked(data: string, cuts: seq<nat>): (chunks: seq<string>)
    ensures Concat(chunks) == data
  {
    if cuts == [] then
      assert Concat([data][1..]) == "";
      [data]
    else if cuts[0] > |data| then Chunked(data, cuts[1..])
    else
      var more := Chunked(data[cuts[0]..], cuts[1..]);
      assert ([data[..cuts[0]]] + more)[1..] == more;
      [data[..cuts[0]]] + more
  }
}
