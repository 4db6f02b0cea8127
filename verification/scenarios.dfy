/** Concrete discovery and registration scenarios, proved as lemmas. */
module Scenarios {
  import opened Wrappers
  import opened ModelNames
  import opened Discovery
  import opened Registration

  const URL: string := "http://localhost:11434"

  function Inventory(ds: seq<ModelDetails>): Fetch
  {
    Received(Some(ModelResponse(Some(ds))))
  }

  /** Offering one model, then two. */
  lemma {:induction false} RegisterTwo(beans: Registry, m1: Model, m2: Model, s: Setup)
    ensures RegisterAll(beans, [m1], s) == RegisterEntry(beans, m1, s)
    ensures RegisterAll(beans, [m1, m2], s) == RegisterEntry(RegisterEntry(beans, m1, s), m2, s)
  {
    assert [m1, m2][..1] == [m1];
    assert [m1][..0] == [];
    assert RegisterAll(beans, [], s) == beans;
    assert RegisterAll(beans, [m1], s) == RegisterEntry(RegisterAll(beans, [], s), m1, s);
  }

  /** Two entries with non-blank names normalise to their two models. */
  lemma {:induction false} NormalizeTwo(a: ModelDetails, b: ModelDetails)
    requires !IsBlank(a.name) && !IsBlank(b.name)
    ensures LoadModels(Inventory([a, b])) == [ToModel(a), ToModel(b)]
  {
    assert [a, b][1..] == [b];
    assert [b][1..] == [];
    assert Normalize([b]) == [ToModel(b)] + Normalize([]);
    assert Normalize([a, b]) == [ToModel(a)] + Normalize([b]);
  }

  /** One non-whitespace character makes a name non-blank. */
  lemma {:induction false} NotBlankAt(s: string, i: nat)
    requires i < |s| && !IsWhitespace(s[i])
    ensures !IsBlank(s)
  {
  }

  /**
   * With "embed-a" configured as an embedding service, the models "embed-a"
   * and "chat-b" end up as exactly one embedding bean and one chat bean, in
   * their own namespaces.
   */
  lemma {:induction false} ClassificationScenario()
    ensures RegisterAll(map[], [Model("embed-a", "embed-a", 10), Model("chat-b", "chat-b", 20)], Setup(URL, {"embed-a"}, {}))
         == map["ollamaEmbeddingModel-embed-a" := EmbeddingService("embed-a", PROVIDER, URL),
                "ollamaModel-chat-b" := Llm("chat-b", PROVIDER, URL)]
  {
    var s := Setup(URL, {"embed-a"}, {});
    var e := Model("embed-a", "embed-a", 10);
    var c := Model("chat-b", "chat-b", 20);
    RegisterTwo(map[], e, c, s);
    assert BeanName(e, s) == "ollamaEmbeddingModel-embed-a";
    assert BeanName(c, s) == "ollamaModel-chat-b";
    NamespacesDisjoint("chat-b", "embed-a");
    var first := RegisterEntry(map[], e, s);
    assert first == map["ollamaEmbeddingModel-embed-a" := EmbeddingService("embed-a", PROVIDER, URL)];
    assert RegisterEntry(first, c, s) == first["ollamaModel-chat-b" := Llm("chat-b", PROVIDER, URL)];
  }

  /** A string of the right length whose every character is the canonical one is the canonical name. */
  lemma {:induction false} CanonicalIs(raw: string, c: string)
    requires |c| == |raw|
    requires forall i :: 0 <= i < |raw| ==> c[i] == LowerChar(DashFor(raw[i]))
    ensures Canonical(raw) == c
  {
    var r := Canonical(raw);
    assert forall i :: 0 <= i < |raw| ==> r[i] == c[i];
  }

  /** Names without colons and capitals are already canonical. */
  lemma {:induction false} PlainNameCanonical(raw: string)
    requires raw == "embed-a" || raw == "chat-b"
    ensures Canonical(raw) == raw
  {
    CanonicalIs(raw, raw);
  }

  /** The inventory "embed-a", "chat-b" is discovered as those two models, in that order. */
  lemma {:induction false} DiscoveryScenario()
    ensures LoadModels(Inventory([ModelDetails("embed-a", 10, ""), ModelDetails("chat-b", 20, "")]))
         == [Model("embed-a", "embed-a", 10), Model("chat-b", "chat-b", 20)]
  {
    var a := ModelDetails("embed-a", 10, "");
    var b := ModelDetails("chat-b", 20, "");
    NotBlankAt(a.name, 0);
    NotBlankAt(b.name, 0);
    NormalizeTwo(a, b);
    PlainNameCanonical(a.name);
    PlainNameCanonical(b.name);
  }

  /** When building the second of three models throws, the first and the third are still registered. */
  lemma {:induction false} IsolationScenario()
    ensures RegisterAll(map[], [Model("a", "a", 1), Model("b", "b", 2), Model("c", "c", 3)], Setup(URL, {}, {"b"}))
         == map["ollamaModel-a" := Llm("a", PROVIDER, URL), "ollamaModel-c" := Llm("c", PROVIDER, URL)]
  {
    var s := Setup(URL, {}, {"b"});
    var ms := [Model("a", "a", 1), Model("b", "b", 2), Model("c", "c", 3)];
    assert Fails(RegisterAll(map[], ms[..1], s), ms[1], s);
    FailedEntryIsSkipped(map[], ms[..1], ms[1], ms[2..], s);
    assert ms[..1] + [ms[1]] + ms[2..] == ms;
    assert ms[..1] + ms[2..] == [ms[0], ms[2]];
    RegisterTwo(map[], ms[0], ms[1], s);
    RegisterTwo(map[], ms[0], ms[2], s);
    assert BeanName(ms[0], s) == "ollamaModel-a";
    assert BeanName(ms[2], s) == "ollamaModel-c";
    assert "ollamaModel-c"[12] != "ollamaModel-a"[12];
    var first := RegisterEntry(map[], ms[0], s);
    assert first == map["ollamaModel-a" := Llm("a", PROVIDER, URL)];
    assert RegisterEntry(first, ms[2], s) == first["ollamaModel-c" := Llm("c", PROVIDER, URL)];
  }

  lemma {:induction false} PhiCanonical(raw: string)
    requires raw == "Phi:2" || raw == "phi:2"
    ensures Canonical(raw) == "phi-2"
  {
    assert LowerChar('P') == 'p';
    assert DashFor(raw[3]) == '-';
    CanonicalIs(raw, "phi-2");
  }

  /** Of two models with one canonical name, the first keeps the bean. */
  lemma {:induction false} FirstOfTwoKeepsBean()
    ensures RegisterAll(map[], [Model("phi-2", "Phi:2", 1), Model("phi-2", "phi:2", 2)], Setup(URL, {}, {}))
         == map["ollamaModel-phi-2" := Llm("Phi:2", PROVIDER, URL)]
  {
    var s := Setup(URL, {}, {});
    var m1 := Model("phi-2", "Phi:2", 1);
    var m2 := Model("phi-2", "phi:2", 2);
    RegisterTwo(map[], m1, m2, s);
    assert BeanName(m1, s) == "ollamaModel-phi-2";
    assert BeanName(m2, s) == "ollamaModel-phi-2";
    var first := RegisterEntry(map[], m1, s);
    assert first == map["ollamaModel-phi-2" := Llm("Phi:2", PROVIDER, URL)];
    assert Fails(first, m2, s);
  }

  /**
   * Two raw names with the same canonical name: the first one registered
   * keeps the bean, the second fails.
   */
  lemma {:induction false} DuplicateCanonicalScenario()
    ensures RegisterAll(map[], LoadModels(Inventory([ModelDetails("Phi:2", 1, ""), ModelDetails("phi:2", 2, "")])),
                        Setup(URL, {}, {}))
         == map["ollamaModel-phi-2" := Llm("Phi:2", PROVIDER, URL)]
  {
    var a := ModelDetails("Phi:2", 1, "");
    var b := ModelDetails("phi:2", 2, "");
    NotBlankAt(a.name, 0);
    NotBlankAt(b.name, 0);
    NormalizeTwo(a, b);
    PhiCanonical(a.name);
    PhiCanonical(b.name);
    assert LoadModels(Inventory([a, b])) == [Model("phi-2", "Phi:2", 1), Model("phi-2", "phi:2", 2)];
    FirstOfTwoKeepsBean();
  }

  lemma {:induction false} LlamaCanonical()
    ensures Canonical("Llama3:8B") == "llama3-8b"
  {
    var raw, c := "Llama3:8B", "llama3-8b";
    assert LowerChar('L') == 'l' && LowerChar('B') == 'b';
    assert DashFor(raw[6]) == '-';
    CanonicalIs(raw, c);
  }

  /** Two leading blank entries are skipped. */
  lemma {:induction false} SkipTwoBlank(d0: ModelDetails, d1: ModelDetails, d2: ModelDetails)
    requires IsBlank(d0.name) && IsBlank(d1.name) && !IsBlank(d2.name)
    ensures LoadModels(Inventory([d0, d1, d2])) == [ToModel(d2)]
  {
    assert [d0, d1, d2][1..] == [d1, d2];
    assert [d1, d2][1..] == [d2];
    assert [d2][1..] == [];
    assert Normalize([d2]) == [ToModel(d2)] + Normalize([]);
    assert Normalize([d1, d2]) == Normalize([d2]);
    assert Normalize([d0, d1, d2]) == Normalize([d1, d2]);
  }

  lemma {:induction false} SpaceTabBlank()
    ensures IsBlank(" \t")
  {
    var s := " \t";
    assert s[0] == ' ' && s[1] == '\t';
  }

  /** Blank names are dropped before anything is registered. */
  lemma {:induction false} BlankScenario()
    ensures LoadModels(Inventory([ModelDetails("", 1, ""), ModelDetails(" \t", 2, ""), ModelDetails("Llama3:8B", 3, "")]))
         == [Model("llama3-8b", "Llama3:8B", 3)]
  {
    var d2 := ModelDetails("Llama3:8B", 3, "");
    SpaceTabBlank();
    NotBlankAt(d2.name, 0);
    SkipTwoBlank(ModelDetails("", 1, ""), ModelDetails(" \t", 2, ""), d2);
    LlamaCanonical();
  }

  /** An unreachable server and an empty inventory register nothing. */
  lemma NothingDiscoveredScenario(beans: Registry, s: Setup)
    ensures RegisterAll(beans, LoadModels(Failed), s) == beans
    ensures RegisterAll(beans, LoadModels(Inventory([])), s) == beans
  {
  }
}
