/**
 * The topic taxonomy consolidator: a store mapping every raw topic seen so far to its
 * canonical topic, grown batch by batch with the help of an untrusted semantic matcher.
 */
module Consolidator {
  import opened Wrappers
  import opened Records
  import ReplyText

  /** The characters `.strip('"\'')` removes from the matcher's answer. */
  const Quotes: set<char> := {'"', '\''}

  /** The matcher's answer after `.strip().strip('"\'')`. */
  function CleanAnswer(reply: string): string {
    ReplyText.StripWhere(ReplyText.Trim(reply), Quotes)
  }

  /** An answer wrapped in double quotes is read as the topic inside them. */
  lemma QuotedAnswerIsUnquoted(topic: string)
    requires topic != [] && topic[0] !in Quotes && topic[|topic| - 1] !in Quotes
    ensures CleanAnswer("\"" + topic + "\"") == topic
  {
    var quoted := "\"" + topic + "\"";
    calc {
      CleanAnswer(quoted);
      ReplyText.StripWhere(ReplyText.Trim(quoted), Quotes);
      { QuotedIsTrimmed(topic); }
      ReplyText.StripWhere(quoted, Quotes);
      { ReplyText.StripWherePadded("\"", topic, "\"", Quotes); }
      topic;
    }
  }

  lemma QuotedIsTrimmed(topic: string)
    ensures ReplyText.Trim("\"" + topic + "\"") == "\"" + topic + "\""
  {
    var quoted := "\"" + topic + "\"";
    assert quoted[0] == '"' && quoted[|quoted| - 1] == '"';
    ReplyText.StripWhereOfStripped(quoted, ReplyText.Whitespace);
  }

  /** Every topic mapped to itself: the fallback when the bootstrap reply is unusable. */
  function Identity(topics: set<string>): (m: map<string, string>)
    ensures m.Keys == topics && forall t :: t in m ==> m[t] == t
  {
    map t | t in topics :: t
  }

  /**
   * `_create_initial_taxonomy`: the whole first batch goes to the model in one request;
   * its fenced JSON reply, when it parses to a string-to-string object, is the mapping,
   * otherwise every topic becomes its own canonical topic. The reply is not checked to
   * cover the batch.
   */
  function InitialTaxonomy(
    topics: set<string>,
    reply: Option<string>,
    parse: string -> Option<map<string, string>>): (m: map<string, string>)
    ensures topics == {} ==> m == map[]
    ensures topics != {} && reply.None? ==> m == Identity(topics)
    ensures topics != {} && reply.Some? && parse(ReplyText.StripFences(reply.value)).None? ==> m == Identity(topics)
    ensures topics != {} && reply.Some? && parse(ReplyText.StripFences(reply.value)).Some? ==>
      m == parse(ReplyText.StripFences(reply.value)).value
    ensures m == Identity(topics) || (reply.Some? && parse(ReplyText.StripFences(reply.value)) == Some(m))
  {
    if topics == {} then map[]
    else match reply
      case None => Identity(topics)
      case Some(text) =>
        match parse(ReplyText.StripFences(text))
        case None => Identity(topics)
        case Some(m) => m
  }

  /**
   * `_find_canonical_topic`: with no canonical topics the topic is its own canonical topic;
   * otherwise the matcher's cleaned answer is accepted only if it is already canonical or
   * is the topic itself, and a failure or any other answer falls back to the topic.
   */
  function FindCanonicalTopic(topic: string, canonical: set<string>, reply: Option<string>): (r: string)
    ensures r == topic || r in canonical
    ensures r != topic ==> canonical != {} && reply.Some? && r == CleanAnswer(reply.value)
    ensures canonical != {} && reply.Some? && CleanAnswer(reply.value) in canonical ==> r == CleanAnswer(reply.value)
  {
    if canonical == {} then topic
    else match reply
      case None => topic
      case Some(text) =>
        var answer := CleanAnswer(text);
        if answer in canonical || answer == topic then answer else topic
  }

  /** The taxonomy store: `topic_mapping` and `canonical_topics`. */
  datatype Taxonomy = Taxonomy(mapping: map<string, string>, canonical: set<string>) {
    /** The canonical set is exactly the range of the mapping. */
    predicate Consistent() {
      canonical == mapping.Values
    }

    /** Every canonical topic is itself a key, mapped to itself. */
    predicate Closed() {
      forall c :: c in canonical ==> c in mapping && mapping[c] == c
    }
  }

  /** One turn of the incremental loop of `consolidate_topics` for `topic`. */
  function Step(tax: Taxonomy, topic: string, matcher: (string, set<string>) -> Option<string>): Taxonomy {
    if topic in tax.mapping then tax
    else
      var c := FindCanonicalTopic(topic, tax.canonical, matcher(topic, tax.canonical));
      Taxonomy(tax.mapping[topic := c], tax.canonical + {c})
  }

  /** The incremental loop over the topics in the order they are visited. */
  function Incremental(tax: Taxonomy, order: seq<string>, matcher: (string, set<string>) -> Option<string>): Taxonomy
    decreases |order|
  {
    if order == [] then tax
    else Step(Incremental(tax, order[..|order| - 1], matcher), order[|order| - 1], matcher)
  }

  lemma NewKeyValues(m: map<string, string>, k: string, v: string)
    requires k !in m
    ensures m[k := v].Values == m.Values + {v}
  {
    var m' := m[k := v];
    forall x | x in m'.Values ensures x in m.Values + {v} {
      var y :| y in m' && m'[y] == x;
      if y != k {
        assert y in m && m[y] == x;
      }
    }
    forall x | x in m.Values + {v} ensures x in m'.Values {
      if x != v || x !in m.Values {
        if x == v {
          assert m'[k] == x;
        } else {
          var y :| y in m && m[y] == x;
          assert m'[y] == x;
        }
      }
      else {
        var y :| y in m && m[y] == x;
        assert m'[y] == x;
      }
    }
  }

  /** The loop only adds keys, never reassigns one, and only adds canonical topics. */
  lemma {:induction false} IncrementalGrows(tax: Taxonomy, order: seq<string>, matcher: (string, set<string>) -> Option<string>)
    ensures var r := Incremental(tax, order, matcher);
      && r.mapping.Keys == tax.mapping.Keys + (set t | t in order)
      && (forall k :: k in tax.mapping ==> r.mapping[k] == tax.mapping[k])
      && tax.canonical <= r.canonical
    decreases |order|
  {
    if order != [] {
      var init := order[..|order| - 1];
      IncrementalGrows(tax, init, matcher);
      assert (set t | t in order) == (set t | t in init) + {order[|order| - 1]} by {
        assert order == init + [order[|order| - 1]];
      }
    }
  }

  lemma {:induction false} IncrementalKeys(tax: Taxonomy, order: seq<string>, matcher: (string, set<string>) -> Option<string>, t: string)
    ensures t in Incremental(tax, order, matcher).mapping <==> t in tax.mapping || t in order
    decreases |order|
  {
    if order != [] {
      var init := order[..|order| - 1];
      var last := order[|order| - 1];
      IncrementalKeys(tax, init, matcher, t);
      assert t in order <==> t in init || t == last by {
        assert order == init + [last];
      }
      StepKeys(Incremental(tax, init, matcher), last, matcher, t);
    }
  }

  lemma StepKeys(tax: Taxonomy, topic: string, matcher: (string, set<string>) -> Option<string>, t: string)
    ensures t in Step(tax, topic, matcher).mapping <==> t in tax.mapping || t == topic
  {
  }

  /** The canonical set stays the range of the mapping. */
  lemma {:induction false} IncrementalKeepsConsistent(tax: Taxonomy, order: seq<string>, matcher: (string, set<string>) -> Option<string>)
    requires tax.Consistent()
    ensures Incremental(tax, order, matcher).Consistent()
    decreases |order|
  {
    if order != [] {
      var p := Incremental(tax, order[..|order| - 1], matcher);
      IncrementalKeepsConsistent(tax, order[..|order| - 1], matcher);
      var topic := order[|order| - 1];
      if topic !in p.mapping {
        NewKeyValues(p.mapping, topic, FindCanonicalTopic(topic, p.canonical, matcher(topic, p.canonical)));
      }
    }
  }

  /**
   * A canonical topic the loop adds is a topic of the batch that was not mapped before
   * and now maps to itself: the matcher can only ever pick an existing canonical topic.
   */
  lemma {:induction false} IncrementalNewCanonicals(tax: Taxonomy, order: seq<string>, matcher: (string, set<string>) -> Option<string>)
    ensures var r := Incremental(tax, order, matcher);
      forall c :: c in r.canonical && c !in tax.canonical ==>
        c in order && c !in tax.mapping && c in r.mapping && r.mapping[c] == c
    decreases |order|
  {
    if order != [] {
      var init := order[..|order| - 1];
      var topic := order[|order| - 1];
      var p := Incremental(tax, init, matcher);
      var r := Incremental(tax, order, matcher);
      IncrementalNewCanonicals(tax, init, matcher);
      IncrementalGrows(tax, init, matcher);
      forall c | c in r.canonical && c !in tax.canonical
        ensures c in order && c !in tax.mapping && c in r.mapping && r.mapping[c] == c
      {
        if c in p.canonical {
          assert c in init;
          assert init[..] == order[..|order| - 1];
        } else {
          assert c == topic && topic !in p.mapping;
        }
      }
    }
  }

  /**
   * The matcher is consulted only about topics that were not mapped when the batch began:
   * two matchers that agree on those give the same result.
   */
  lemma {:induction false} IncrementalConsultsOnlyNewTopics(
    tax: Taxonomy, order: seq<string>,
    matcher1: (string, set<string>) -> Option<string>,
    matcher2: (string, set<string>) -> Option<string>)
    requires forall i, c :: 0 <= i < |order| && order[i] !in tax.mapping ==> matcher1(order[i], c) == matcher2(order[i], c)
    ensures Incremental(tax, order, matcher1) == Incremental(tax, order, matcher2)
    decreases |order|
  {
    if order != [] {
      var init := order[..|order| - 1];
      var topic := order[|order| - 1];
      IncrementalConsultsOnlyNewTopics(tax, init, matcher1, matcher2);
      var p := Incremental(tax, init, matcher1);
      if topic !in p.mapping {
        IncrementalKeys(tax, init, matcher1, topic);
        assert matcher1(topic, p.canonical) == matcher2(topic, p.canonical);
      }
    }
  }

  /** Topics that are all mapped already leave the store untouched, whatever the matcher says. */
  lemma {:induction false} IncrementalOfMappedTopics(tax: Taxonomy, order: seq<string>, matcher: (string, set<string>) -> Option<string>)
    requires forall i :: 0 <= i < |order| ==> order[i] in tax.mapping
    ensures Incremental(tax, order, matcher) == tax
    decreases |order|
  {
    if order != [] {
      IncrementalOfMappedTopics(tax, order[..|order| - 1], matcher);
    }
  }

  /**
   * A later batch whose topics were all seen before (in this batch or earlier) changes
   * nothing and asks the matcher nothing: consolidation is idempotent.
   */
  lemma RepeatedBatchChangesNothing(
    tax: Taxonomy,
    first: seq<string>, matcher1: (string, set<string>) -> Option<string>,
    second: seq<string>, matcher2: (string, set<string>) -> Option<string>)
    requires forall i :: 0 <= i < |second| ==> second[i] in first || second[i] in tax.mapping
    ensures var r := Incremental(tax, first, matcher1);
      Incremental(r, second, matcher2) == r
  {
    IncrementalGrows(tax, first, matcher1);
    IncrementalOfMappedTopics(Incremental(tax, first, matcher1), second, matcher2);
  }

  /** `mapping.get(t, t)`. */
  function MapTopic(mapping: map<string, string>, t: string): string {
    if t in mapping then mapping[t] else t
  }

  /** The topics of one record, each looked up in the mapping. */
  function MapTopics(mapping: map<string, string>, topics: seq<string>): (r: seq<string>)
    ensures |r| == |topics|
    ensures forall j :: 0 <= j < |topics| ==> r[j] == MapTopic(mapping, topics[j])
  {
    if topics == [] then []
    else MapTopics(mapping, topics[..|topics| - 1]) + [MapTopic(mapping, topics[|topics| - 1])]
  }

  /** The fallback bootstrap mapping gives a closed store. */
  lemma IdentityIsClosed(topics: set<string>)
    ensures Taxonomy(Identity(topics), Identity(topics).Values).Consistent()
    ensures Taxonomy(Identity(topics), Identity(topics).Values).Closed()
  {
    var m := Identity(topics);
    forall c | c in m.Values ensures c in m && m[c] == c {
      var k :| k in m && m[k] == c;
    }
  }

  /**
   * The loop keeps a store closed: a new topic is mapped either to itself or to a canonical
   * topic that already maps to itself.
   */
  lemma {:induction false} IncrementalKeepsClosed(tax: Taxonomy, order: seq<string>, matcher: (string, set<string>) -> Option<string>)
    requires tax.Closed()
    ensures Incremental(tax, order, matcher).Closed()
    decreases |order|
  {
    if order != [] {
      var p := Incremental(tax, order[..|order| - 1], matcher);
      IncrementalKeepsClosed(tax, order[..|order| - 1], matcher);
      var topic := order[|order| - 1];
      if topic !in p.mapping {
        var c := FindCanonicalTopic(topic, p.canonical, matcher(topic, p.canonical));
        var r := Step(p, topic, matcher);
        forall x | x in r.canonical ensures x in r.mapping && r.mapping[x] == x {
          if x in p.canonical {
            assert x != topic;
          }
        }
      }
    }
  }

  /** In a consistent, closed store, looking a topic up a second time changes nothing. */
  lemma MapTopicIdempotent(tax: Taxonomy, t: string)
    requires tax.Consistent() && tax.Closed()
    ensures MapTopic(tax.mapping, MapTopic(tax.mapping, t)) == MapTopic(tax.mapping, t)
  {
    if t in tax.mapping {
      assert tax.mapping[t] in tax.canonical;
    }
  }

  /** Reapplying the mapping of a consistent, closed store to mapped topics is a no-op. */
  lemma MapTopicsIdempotent(tax: Taxonomy, topics: seq<string>)
    requires tax.Consistent() && tax.Closed()
    ensures MapTopics(tax.mapping, MapTopics(tax.mapping, topics)) == MapTopics(tax.mapping, topics)
  {
    var once := MapTopics(tax.mapping, topics);
    forall j | 0 <= j < |topics|
      ensures MapTopics(tax.mapping, once)[j] == once[j]
    {
      MapTopicIdempotent(tax, topics[j]);
    }
  }

  /**
   * A consistent store that is not closed: `a` maps to `A`, but `A` is no key. The matcher
   * may send `A` to `B`, after which looking `a` up twice gives `B`, not `A`.
   */
  lemma UnclosedStoreBreaksIdempotence()
    ensures var tax := Taxonomy(map["a" := "A", "b" := "B"], {"A", "B"});
      var r := Incremental(tax, ["A"], (t: string, c: set<string>) => Some("\"" + "B" + "\""));
      && tax.Consistent() && !tax.Closed() && r.Consistent()
      && MapTopic(r.mapping, "a") == "A"
      && MapTopic(r.mapping, MapTopic(r.mapping, "a")) == "B"
  {
    var tax := Taxonomy(map["a" := "A", "b" := "B"], {"A", "B"});
    var matcher := (t: string, c: set<string>) => Some("\"" + "B" + "\"");
    assert "A"[0] != "a"[0] && "A"[0] != "b"[0];
    assert "A" !in tax.mapping;
    assert tax.mapping.Values == {"A", "B"} by {
      assert tax.mapping["a"] == "A" && tax.mapping["b"] == "B";
    }
    QuotedAnswerIsUnquoted("B");
    var c := FindCanonicalTopic("A", tax.canonical, matcher("A", tax.canonical));
    assert c == "B";
    var r := Incremental(tax, ["A"], matcher);
    assert ["A"][..0] == [];
    assert r == Step(tax, "A", matcher);
    assert r.mapping == tax.mapping["A" := "B"];
    IncrementalKeepsConsistent(tax, ["A"], matcher);
  }

  class TopicConsolidator {
    var topicMapping: map<string, string>
    var canonicalTopics: set<string>

    ghost predicate Valid()
      reads this
    {
      canonicalTopics == topicMapping.Values
    }

    function State(): Taxonomy
      reads this
    {
      Taxonomy(topicMapping, canonicalTopics)
    }

    constructor ()
      ensures Valid()
      ensures topicMapping == map[] && canonicalTopics == {}
    {
      topicMapping := map[];
      canonicalTopics := {};
    }

    /**
     * `_update_taxonomy`: records every pair of `m`, overwriting, and adds every value to
     * the canonical set.
     */
    method UpdateTaxonomy(m: map<string, string>)
      modifies this
      ensures topicMapping == old(topicMapping) + m
      ensures canonicalTopics == old(canonicalTopics) + m.Values
    {
      ghost var mapping0, canonical0 := topicMapping, canonicalTopics;
      var rest := m.Keys;
      while rest != {}
        invariant rest <= m.Keys
        invariant forall k :: k in topicMapping <==> k in mapping0 || (k in m && k !in rest)
        invariant forall k :: k in topicMapping ==> topicMapping[k] == if k in m && k !in rest then m[k] else mapping0[k]
        invariant forall c :: c in canonicalTopics <==> c in canonical0 || exists k :: k in m && k !in rest && m[k] == c
        decreases rest
      {
        var k :| k in rest;
        topicMapping := topicMapping[k := m[k]];
        canonicalTopics := canonicalTopics + {m[k]};
        rest := rest - {k};
      }
    }

    /**
     * `consolidate_topics`. `propose` is the whole-batch bootstrap request and `parse` the
     * JSON decoding of its cleaned reply; `matcher` is the per-topic request, given the
     * topic and the canonical set at the time of the call. `order` is the order in which
     * the incremental loop visits the batch, `asked` the topics the loop
     * sends to the matcher (that its answers on other topics do not matter is
     * `IncrementalConsultsOnlyNewTopics`).
     */
    method ConsolidateTopics(
      newTopics: set<string>,
      propose: set<string> -> Option<string>,
      parse: string -> Option<map<string, string>>,
      matcher: (string, set<string>) -> Option<string>)
      returns (mapping: map<string, string>, ghost order: seq<string>, ghost asked: set<string>)
      requires Valid()
      modifies this
      ensures Valid()
      ensures newTopics == {} ==>
        && mapping == map[] && asked == {}
        && topicMapping == old(topicMapping) && canonicalTopics == old(canonicalTopics)
      ensures newTopics != {} && old(canonicalTopics) == {} ==>
        && mapping == InitialTaxonomy(newTopics, propose(newTopics), parse)
        && topicMapping == mapping && canonicalTopics == mapping.Values
        && asked == {}
      ensures old(canonicalTopics) != {} ==>
        && (forall t :: t in order <==> t in newTopics)
        && (forall i, j :: 0 <= i < j < |order| ==> order[i] != order[j])
        && State() == Incremental(old(State()), order, matcher)
        && mapping.Keys == newTopics
        && (forall t :: t in newTopics ==> t in topicMapping && mapping[t] == topicMapping[t])
        && asked == newTopics - old(topicMapping).Keys
    {
      if newTopics == {} {
        return map[], [], {};
      }
      if canonicalTopics == {} {
        mapping := InitialTaxonomy(newTopics, propose(newTopics), parse);
        Bootstrap(mapping);
        return mapping, [], {};
      }
      mapping, order, asked := ConsolidateIncrementally(newTopics, matcher);
    }

    /** The first batch of `consolidate_topics`: its mapping becomes the whole taxonomy. */
    method Bootstrap(mapping: map<string, string>)
      requires Valid() && canonicalTopics == {}
      modifies this
      ensures Valid()
      ensures topicMapping == mapping && canonicalTopics == mapping.Values
    {
      assert topicMapping == map[];
      UpdateTaxonomy(mapping);
      assert map[] + mapping == mapping;
    }

    /** The per-topic loop of `consolidate_topics`, run once canonical topics exist. */
    method ConsolidateIncrementally(newTopics: set<string>, matcher: (string, set<string>) -> Option<string>)
      returns (mapping: map<string, string>, ghost order: seq<string>, ghost asked: set<string>)
      requires Valid() && canonicalTopics != {}
      modifies this
      ensures Valid()
      ensures forall t :: t in order <==> t in newTopics
      ensures forall i, j :: 0 <= i < j < |order| ==> order[i] != order[j]
      ensures State() == Incremental(old(State()), order, matcher)
      ensures mapping.Keys == newTopics
      ensures forall t :: t in newTopics ==> t in topicMapping && mapping[t] == topicMapping[t]
      ensures asked == newTopics - old(topicMapping).Keys
    {
      ghost var start := State();
      mapping, order, asked := map[], [], {};
      var rest := newTopics;
      while rest != {}
        invariant rest <= newTopics
        invariant forall t :: t in order <==> t in newTopics - rest
        invariant forall i, j :: 0 <= i < j < |order| ==> order[i] != order[j]
        invariant State() == Incremental(start, order, matcher)
        invariant Valid() && canonicalTopics != {}
        invariant mapping.Keys == newTopics - rest
        invariant forall t :: t in mapping ==> t in topicMapping && mapping[t] == topicMapping[t]
        invariant forall t :: t in asked <==> t in order && t !in start.mapping
        decreases rest
      {
        var topic :| topic in rest;
        IncrementalKeys(start, order, matcher, topic);
        assert (order + [topic])[..|order|] == order;
        if topic !in topicMapping {
          assert topic !in start.mapping;
          asked := asked + {topic};
        } else {
          assert topic !in order && topic in start.mapping;
        }
        var canonical := ConsolidateOne(topic, matcher);
        mapping := mapping[topic := canonical];
        rest := rest - {topic};
        order := order + [topic];
      }
    }

    /**
     * One turn of the per-topic loop: a mapped topic keeps its canonical topic and the
     * matcher is not asked; a new topic gets the validated answer of the matcher, which is
     * recorded in the mapping and the canonical set.
     */
    method ConsolidateOne(topic: string, matcher: (string, set<string>) -> Option<string>)
      returns (canonical: string)
      requires Valid() && canonicalTopics != {}
      modifies this
      ensures Valid() && canonicalTopics != {}
      ensures State() == Step(old(State()), topic, matcher)
      ensures topicMapping.Keys == old(topicMapping).Keys + {topic}
      ensures forall k :: k in old(topicMapping) ==> topicMapping[k] == old(topicMapping)[k]
      ensures canonical == topicMapping[topic]
    {
      if topic in topicMapping {
        canonical := topicMapping[topic];
      } else {
        var reply := matcher(topic, canonicalTopics);
        canonical := FindCanonicalTopic(topic, canonicalTopics, reply);
        NewKeyValues(topicMapping, topic, canonical);
        topicMapping := topicMapping[topic := canonical];
        canonicalTopics := canonicalTopics + {canonical};
      }
    }

    /** `apply_mapping`: rewrites each record's topics through the mapping, changing nothing. */
    function ApplyMapping(records: seq<Extraction>): (r: seq<Extraction>)
      reads this
      ensures |r| == |records|
      ensures forall i :: 0 <= i < |records| ==>
        && r[i].reviewId == records[i].reviewId
        && |r[i].topics| == |records[i].topics|
        && (forall j :: 0 <= j < |records[i].topics| ==> r[i].topics[j] == MapTopic(topicMapping, records[i].topics[j]))
        && r[i].content == Some(records[i].content.GetOr(""))
        && r[i].reasoning == Some(records[i].reasoning.GetOr(""))
      ensures Valid() ==> forall i, j :: 0 <= i < |records| && 0 <= j < |records[i].topics| ==>
        if records[i].topics[j] in topicMapping then r[i].topics[j] in canonicalTopics
        else r[i].topics[j] == records[i].topics[j]
    {
      var m := topicMapping;
      seq(|records|, i requires 0 <= i < |records| =>
        Extraction(
          records[i].reviewId,
          MapTopics(m, records[i].topics),
          Some(records[i].content.GetOr("")),
          Some(records[i].reasoning.GetOr(""))))
    }

    /** `get_topic_mapping`: a copy of the whole mapping. */
    method GetTopicMapping() returns (m: map<string, string>)
      ensures m == topicMapping
    {
      m := topicMapping;
    }

    /** `get_canonical_topics`: a copy of the canonical set. */
    method GetCanonicalTopics() returns (s: set<string>)
      ensures s == canonicalTopics
    {
      s := canonicalTopics;
    }
  }
}
