/** Session ids: two packets are about one session exactly when they have the same text for each id attribute. */
module StoreIds {
  import opened Common
  import opened Packets
  import opened StoreSpec

  /** No text that goes into the id has a slash. */
  predicate SlashFree(conf: Conf, p: Packet) {
    forall a :: a in conf.idAttributes ==> '/' !in p.GetString(a)
  }

  predicate SameTexts(attributes: seq<string>, p: Packet, q: Packet) {
    forall a :: a in attributes ==> p.GetString(a) == q.GetString(a)
  }

  /** What comes after the last slash can be told from what comes before it. */
  lemma CutAtLastSlash(a: string, t: string, b: string, u: string)
    requires a + t == b + u && '/' !in t && '/' !in u
    requires (a == "" && b == "") || (a != "" && b != "" && Last(a) == '/' && Last(b) == '/')
    ensures a == b && t == u
  {
    if |a| < |b| {
      SlashInside(a, t, b, u);
    } else if |b| < |a| {
      SlashInside(b, u, a, t);
    } else {
      assert (a + t)[..|a|] == a && (a + t)[|a|..] == t && (b + u)[..|b|] == b && (b + u)[|b|..] == u;
    }
  }

  lemma SlashInside(a: string, t: string, b: string, u: string)
    requires a + t == b + u && |a| < |b| && Last(b) == '/'
    ensures '/' in t
  {
    assert (b + u)[|b| - 1] == '/' && (a + t)[|b| - 1] == t[|b| - 1 - |a|];
  }

  lemma JoinEnds(attributes: seq<string>, p: Packet)
    ensures JoinId(attributes, p) == "" <==> attributes == []
    ensures attributes != [] ==> Last(JoinId(attributes, p)) == '/'
    ensures attributes != [] ==>
              Front(JoinId(attributes, p)) == JoinId(Front(attributes), p) + p.GetString(Last(attributes))
  {
    if attributes != [] {
      var id := JoinId(attributes, p);
      assert id == JoinId(Front(attributes), p) + p.GetString(Last(attributes)) + "/";
      assert Last(id) == '/';
    }
  }

  lemma {:induction false} JoinIsInjective(attributes: seq<string>, p: Packet, q: Packet)
    requires forall a :: a in attributes ==> '/' !in p.GetString(a) && '/' !in q.GetString(a)
    ensures JoinId(attributes, p) == JoinId(attributes, q) <==> SameTexts(attributes, p, q)
  {
    if attributes != [] {
      var front, last := Front(attributes), Last(attributes);
      assert last in attributes && forall a :: a in attributes <==> a in front || a == last;
      JoinIsInjective(front, p, q);
      JoinEnds(attributes, p);
      JoinEnds(attributes, q);
      JoinEnds(front, p);
      JoinEnds(front, q);
      if JoinId(attributes, p) == JoinId(attributes, q) {
        CutAtLastSlash(JoinId(front, p), p.GetString(last), JoinId(front, q), q.GetString(last));
      }
    }
  }

  /** Two packets have the same session id exactly when every id attribute has the same text in both. */
  lemma SameIdIff(conf: Conf, p: Packet, q: Packet)
    requires SlashFree(conf, p) && SlashFree(conf, q)
    ensures SessionId(conf, p) == SessionId(conf, q) <==>
            forall a :: a in conf.idAttributes ==> p.GetString(a) == q.GetString(a)
  {
    JoinEnds(conf.idAttributes, p);
    JoinEnds(conf.idAttributes, q);
    JoinIsInjective(conf.idAttributes, p, q);
    if conf.idAttributes != [] && SessionId(conf, p) == SessionId(conf, q) {
      assert JoinId(conf.idAttributes, p) == SessionId(conf, p) + "/";
      assert JoinId(conf.idAttributes, q) == SessionId(conf, q) + "/";
    }
  }

  /** One attribute is the id itself; the texts of two are put together with a slash. */
  lemma IdsOfOneAndTwo(conf: Conf, p: Packet, a: string, b: string)
    ensures conf.idAttributes == [] ==> SessionId(conf, p) == ""
    ensures conf.idAttributes == [a] ==> SessionId(conf, p) == p.GetString(a)
    ensures conf.idAttributes == [a, b] ==> SessionId(conf, p) == p.GetString(a) + "/" + p.GetString(b)
  {
    JoinEnds(conf.idAttributes, p);
    if conf.idAttributes == [a] {
      assert Front([a]) == [] && JoinId([], p) == "";
      assert "" + p.GetString(a) == p.GetString(a);
    } else if conf.idAttributes == [a, b] {
      assert Front([a, b]) == [a] && Front([a]) == [] && JoinId([], p) == "";
      assert JoinId([a], p) == "" + p.GetString(a) + "/" == p.GetString(a) + "/";
    }
  }

  /** With a slash in a text two sessions can get one id. */
  lemma SlashesCollide(conf: Conf)
    requires conf.idAttributes == ["a", "b"]
    ensures var p := Packet(4, [Avp("a", "1/2", 0), Avp("b", "3", 0)]);
      var q := Packet(4, [Avp("a", "1", 0), Avp("b", "2/3", 0)]);
      SessionId(conf, p) == SessionId(conf, q) == "1/2/3"
  {
    var p := Packet(4, [Avp("a", "1/2", 0), Avp("b", "3", 0)]);
    var q := Packet(4, [Avp("a", "1", 0), Avp("b", "2/3", 0)]);
    assert p.avps[1..] == [Avp("b", "3", 0)] && q.avps[1..] == [Avp("b", "2/3", 0)];
    assert FirstNamed(p.avps, "b") == Some(Avp("b", "3", 0)) && FirstNamed(q.avps, "b") == Some(Avp("b", "2/3", 0));
    IdsOfOneAndTwo(conf, p, "a", "b");
    IdsOfOneAndTwo(conf, q, "a", "b");
  }
}
