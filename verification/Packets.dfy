/** RADIUS packets as the session store sees them: named attributes with a text and a number. */
module Packets {
  import opened Common

  const ACCESS_REQUEST := 1
  const ACCOUNTING_REQUEST := 4

  /** `text` and `number` are what GetString and GetInt give for the attribute. */
  datatype Avp = Avp(name: string, text: string, number: int)

  datatype Packet = Packet(code: int, avps: seq<Avp>) {

    /** The first attribute with the given name. */
    function GetAvp(name: string): Option<Avp> {
      FirstNamed(avps, name)
    }

    function GetText(name: string): Option<string> {
      match GetAvp(name)
      case None => None
      case Some(a) => Some(a.text)
    }

    function GetString(name: string): string {
      match GetAvp(name)
      case None => ""
      case Some(a) => a.text
    }

    function GetInt(name: string): int {
      match GetAvp(name)
      case None => 0
      case Some(a) => a.number
    }

    /** A copy that keeps only the attributes named in the filter, in order. */
    function Copy(filter: seq<string>): Packet {
      Packet(code, Keep(avps, filter))
    }

    function Add(a: Avp): Packet {
      Packet(code, avps + [a])
    }
  }

  function FirstNamed(avps: seq<Avp>, name: string): Option<Avp> {
    if avps == [] then None
    else if avps[0].name == name then Some(avps[0])
    else FirstNamed(avps[1..], name)
  }

  function Keep(avps: seq<Avp>, filter: seq<string>): seq<Avp> {
    if avps == [] then []
    else (if avps[0].name in filter then [avps[0]] else []) + Keep(avps[1..], filter)
  }

  /** Filtering keeps the first value of every attribute named in the filter and hides the others. */
  lemma {:induction false} FirstOfKept(avps: seq<Avp>, filter: seq<string>, name: string)
    ensures FirstNamed(Keep(avps, filter), name) == if name in filter then FirstNamed(avps, name) else None
  {
    if avps != [] {
      FirstOfKept(avps[1..], filter, name);
      var rest := Keep(avps[1..], filter);
      assert ([avps[0]] + rest)[1..] == rest;
      assert [] + rest == rest;
    }
  }

  /** Appending an attribute matters only to a lookup that found nothing before. */
  lemma {:induction false} FirstOfAppended(avps: seq<Avp>, a: Avp, name: string)
    ensures FirstNamed(avps + [a], name) ==
            if FirstNamed(avps, name).Some? then FirstNamed(avps, name)
            else if a.name == name then Some(a) else None
  {
    if avps != [] {
      assert (avps + [a])[1..] == avps[1..] + [a];
      FirstOfAppended(avps[1..], a, name);
    } else {
      assert avps + [a] == [a];
    }
  }
}
