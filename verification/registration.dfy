/**
 * The registration pass of `OllamaModels.registerModels`, stated on values:
 * bean names, the handles put into the bean factory, and the registry that
 * results from offering the discovered models one after another.
 */
module Registration {
  import opened Wrappers
  import opened ModelNames
  import opened Discovery

  /** The Spring profile that switches discovery on. */
  const OLLAMA_PROFILE: string := "ollama"

  /** The provider name recorded in every handle. */
  const PROVIDER: string := "Ollama"

  /** Bean-name prefixes of chat models and of embedding models. */
  const CHAT_PREFIX: string := "ollamaModel-"
  const EMBEDDING_PREFIX: string := "ollamaEmbeddingModel-"

  /**
   * What the bean factory holds for a model: an `Llm` for a chat model or an
   * `EmbeddingService`, each recording the raw model name it was built for,
   * the provider and the server it talks to.
   */
  datatype Handle =
    | Llm(name: string, provider: string, baseUrl: string)
    | EmbeddingService(name: string, provider: string, baseUrl: string)

  /**
   * The environment of one registration pass: the server address, the
   * configured names of well-known embedding services, and the raw names
   * for which building the client object throws (a failure inside the
   * Ollama client builders, which are not part of this model).
   */
  datatype Setup = Setup(baseUrl: string, embeddingNames: set<string>, unbuildable: set<string>)

  /** Spring's bean registry: bean name to registered object. */
  type Registry = map<string, Handle>

  predicate StartsWith(s: string, prefix: string)
  {
    |prefix| <= |s| && s[..|prefix|] == prefix
  }

  /**
   * Classification: a model is an embedding model when its RAW name is
   * configured as one; a configured name that matches only the canonical
   * name does not count.
   */
  predicate IsEmbedding(m: Model, s: Setup)
    ensures m.model in s.embeddingNames ==> IsEmbedding(m, s)
    ensures m.name in s.embeddingNames && m.model !in s.embeddingNames ==> !IsEmbedding(m, s)
  {
    m.model in s.embeddingNames
  }

  /**
   * The bean name a model is registered under: the prefix of the embedding
   * namespace exactly when the model is an embedding model, the chat prefix
   * otherwise, followed by the canonical name. The two prefixes already
   * differ at position 6 ('E' against 'M').
   */
  function BeanName(m: Model, s: Setup): (r: string)
    ensures |r| == |m.name| + if IsEmbedding(m, s) then |EMBEDDING_PREFIX| else |CHAT_PREFIX|
    ensures r[6] == if IsEmbedding(m, s) then 'E' else 'M'
  {
    if IsEmbedding(m, s) then EMBEDDING_PREFIX + m.name else CHAT_PREFIX + m.name
  }

  /** `ollamaLlmOf`: a chat handle for raw name `name`, or None when building throws. */
  function LlmOf(name: string, s: Setup): (r: Option<Handle>)
    ensures r.Some? <==> name !in s.unbuildable
    ensures r.Some? ==> r.value.Llm? && r.value.name == name && r.value.provider == PROVIDER && r.value.baseUrl == s.baseUrl
  {
    if name in s.unbuildable then None else Some(Llm(name, PROVIDER, s.baseUrl))
  }

  /** `ollamaEmbeddingServiceOf`: an embedding handle for `name`, or None when building throws. */
  function EmbeddingServiceOf(name: string, s: Setup): (r: Option<Handle>)
    ensures r.Some? <==> name !in s.unbuildable
    ensures r.Some? ==> r.value.EmbeddingService? && r.value.name == name && r.value.provider == PROVIDER && r.value.baseUrl == s.baseUrl
  {
    if name in s.unbuildable then None else Some(EmbeddingService(name, PROVIDER, s.baseUrl))
  }

  /**
   * The handle built for a model according to its classification: there is
   * one exactly when the builder does not throw for the raw name, and it is
   * an embedding handle exactly for an embedding model, built for the raw
   * name, the Ollama provider and the base URL.
   */
  function Build(m: Model, s: Setup): (r: Option<Handle>)
    ensures r.Some? <==> m.model !in s.unbuildable
    ensures r.Some? ==> (r.value.EmbeddingService? <==> m.model in s.embeddingNames)
    ensures r.Some? ==> r.value.name == m.model && r.value.provider == PROVIDER && r.value.baseUrl == s.baseUrl
  {
    if IsEmbedding(m, s) then EmbeddingServiceOf(m.model, s) else LlmOf(m.model, s)
  }

  /**
   * Registering `m` into `beans` fails (the catch at the end of the loop
   * body is taken): building throws for the raw name, or the bean name is
   * already bound, in which case the existing bean is kept.
   */
  predicate Fails(beans: Registry, m: Model, s: Setup)
    ensures Fails(beans, m, s) <==> m.model in s.unbuildable || BeanName(m, s) in beans
    ensures BeanName(m, s) in beans ==> Fails(beans, m, s)
  {
    Build(m, s).None? || BeanName(m, s) in beans
  }

  /**
   * One iteration of the registration loop, with its try/catch: on failure
   * the registry is left as it was. Existing beans are never overwritten,
   * at most the model's own bean name is added, and the registry changes
   * exactly when the entry does not fail.
   */
  function RegisterEntry(beans: Registry, m: Model, s: Setup): (r: Registry)
    ensures forall k :: k in beans ==> k in r && r[k] == beans[k]
    ensures r.Keys <= beans.Keys + {BeanName(m, s)}
    ensures r == beans <==> Fails(beans, m, s)
    ensures !Fails(beans, m, s) ==> r[BeanName(m, s)] == Build(m, s).value
  {
    if Fails(beans, m, s) then beans else beans[BeanName(m, s) := Build(m, s).value]
  }

  /** The whole loop: the models offered in order, each through RegisterEntry. */
  function RegisterAll(beans: Registry, ms: seq<Model>, s: Setup): (r: Registry)
    ensures forall k :: k in beans ==> k in r && r[k] == beans[k]
  {
    if ms == [] then beans
    else RegisterEntry(RegisterAll(beans, ms[..|ms| - 1], s), ms[|ms| - 1], s)
  }

  /** The pass adds at most one bean per model offered. */
  lemma {:induction false} RegistryGrowthBound(beans: Registry, ms: seq<Model>, s: Setup)
    ensures |RegisterAll(beans, ms, s).Keys| <= |beans.Keys| + |ms|
  {
    if ms != [] {
      var before := RegisterAll(beans, ms[..|ms| - 1], s);
      RegistryGrowthBound(beans, ms[..|ms| - 1], s);
      assert |before.Keys + {BeanName(ms[|ms| - 1], s)}| <= |before.Keys| + 1;
      assert RegisterAll(beans, ms, s).Keys <= before.Keys + {BeanName(ms[|ms| - 1], s)};
    }
  }

  /** Model `m` would put a handle under bean name `k`, if that name were free. */
  predicate Claims(m: Model, s: Setup, k: string)
  {
    Build(m, s).Some? && BeanName(m, s) == k
  }

  /** A chat bean name and an embedding bean name are never equal, whatever the canonical names. */
  lemma {:induction false} NamespacesDisjoint(a: string, b: string)
    ensures CHAT_PREFIX + a != EMBEDDING_PREFIX + b
    ensures !StartsWith(CHAT_PREFIX + a, EMBEDDING_PREFIX) && StartsWith(CHAT_PREFIX + a, CHAT_PREFIX)
    ensures StartsWith(EMBEDDING_PREFIX + b, EMBEDDING_PREFIX) && !StartsWith(EMBEDDING_PREFIX + b, CHAT_PREFIX)
  {
    assert (CHAT_PREFIX + a)[6] == 'M';
    assert (EMBEDDING_PREFIX + b)[6] == 'E';
    assert (EMBEDDING_PREFIX + b)[..|EMBEDDING_PREFIX|] == EMBEDDING_PREFIX;
    assert (CHAT_PREFIX + a)[..|CHAT_PREFIX|] == CHAT_PREFIX;
    assert (EMBEDDING_PREFIX + b)[..|CHAT_PREFIX|][6] == 'E';
    if |EMBEDDING_PREFIX| <= |CHAT_PREFIX + a| {
      assert (CHAT_PREFIX + a)[..|EMBEDDING_PREFIX|][6] == 'M';
    }
  }

  /**
   * The bean name is in the embedding namespace exactly when the raw name
   * is a configured embedding name, and the handle built is of the matching
   * kind; a chat model and an embedding model with the same canonical name
   * get different bean names.
   */
  lemma {:induction false} ClassificationByRawName(m: Model, s: Setup)
    ensures StartsWith(BeanName(m, s), EMBEDDING_PREFIX) <==> m.model in s.embeddingNames
    ensures Build(m, s).Some? ==> (Build(m, s).value.EmbeddingService? <==> m.model in s.embeddingNames)
    ensures Build(m, s).Some? ==> Build(m, s).value.name == m.model && Build(m, s).value.provider == PROVIDER
  {
    NamespacesDisjoint(m.name, m.name);
  }

  /** Two models of different kinds never compete for a bean name. */
  lemma {:induction false} KindsNeverCollide(m1: Model, m2: Model, s: Setup)
    requires IsEmbedding(m1, s) && !IsEmbedding(m2, s)
    ensures BeanName(m1, s) != BeanName(m2, s)
  {
    NamespacesDisjoint(m2.name, m1.name);
  }

  /** Offering `xs` and then `ys` is offering `xs + ys`. */
  lemma {:induction false} RegisterAllConcat(beans: Registry, xs: seq<Model>, ys: seq<Model>, s: Setup)
    ensures RegisterAll(beans, xs + ys, s) == RegisterAll(RegisterAll(beans, xs, s), ys, s)
    decreases |ys|
  {
    if ys == [] {
      assert xs + ys == xs;
    } else {
      var n := |ys|;
      assert (xs + ys)[..|xs + ys| - 1] == xs + ys[..n - 1];
      assert (xs + ys)[|xs + ys| - 1] == ys[n - 1];
      RegisterAllConcat(beans, xs, ys[..n - 1], s);
    }
  }

  /**
   * Failure isolation: an entry whose registration fails behaves as if it
   * were not in the list: everything before it stays registered and every
   * entry after it is processed as it would have been without it.
   */
  lemma {:induction false} FailedEntryIsSkipped(beans: Registry, pre: seq<Model>, m: Model, post: seq<Model>, s: Setup)
    requires Fails(RegisterAll(beans, pre, s), m, s)
    ensures RegisterAll(beans, pre + [m] + post, s) == RegisterAll(beans, pre + post, s)
  {
    RegisterAllConcat(beans, pre + [m], post, s);
    RegisterAllConcat(beans, pre, [m], s);
    RegisterAllConcat(beans, pre, post, s);
    assert RegisterAll(RegisterAll(beans, pre, s), [m], s) == RegisterAll(beans, pre, s) by {
      assert [m][..0] == [];
    }
  }

  /** Some model of `ms` claims bean name `k`. */
  ghost predicate ClaimedIn(ms: seq<Model>, s: Setup, k: string)
  {
    exists i :: 0 <= i < |ms| && Claims(ms[i], s, k)
  }

  lemma {:induction false} ClaimedInSnoc(ms: seq<Model>, s: Setup, k: string)
    requires ms != []
    ensures ClaimedIn(ms, s, k) <==> ClaimedIn(ms[..|ms| - 1], s, k) || Claims(ms[|ms| - 1], s, k)
  {
    if ClaimedIn(ms, s, k) {
      var i :| 0 <= i < |ms| && Claims(ms[i], s, k);
      ClaimantInPrefix(ms, s, k, i);
    }
    if ClaimedIn(ms[..|ms| - 1], s, k) {
      var i :| 0 <= i < |ms| - 1 && Claims(ms[..|ms| - 1][i], s, k);
      assert ms[..|ms| - 1][i] == ms[i];
      assert ClaimedIn(ms, s, k);
    }
    if Claims(ms[|ms| - 1], s, k) {
      assert ClaimedIn(ms, s, k);
    }
  }

  lemma {:induction false} ClaimantInPrefix(ms: seq<Model>, s: Setup, k: string, i: nat)
    requires i < |ms| && Claims(ms[i], s, k)
    ensures ClaimedIn(ms[..|ms| - 1], s, k) || Claims(ms[|ms| - 1], s, k)
  {
    if i < |ms| - 1 {
      assert ms[..|ms| - 1][i] == ms[i];
    }
  }

  /**
   * The bean names present after the pass: the ones present before, and
   * the ones claimed by some model whose handle could be built.
   */
  lemma {:induction false} RegisteredNames(beans: Registry, ms: seq<Model>, s: Setup, k: string)
    ensures k in RegisterAll(beans, ms, s) <==> k in beans || ClaimedIn(ms, s, k)
  {
    if ms != [] {
      RegisteredNames(beans, ms[..|ms| - 1], s, k);
      ClaimedInSnoc(ms, s, k);
    }
  }

  /**
   * First registration wins: a bean name that was free is bound to the
   * handle of the FIRST model claiming it; later claimants fail.
   */
  lemma {:induction false} FirstRegistrationWins(beans: Registry, ms: seq<Model>, s: Setup, i: nat)
    requires i < |ms| && Build(ms[i], s).Some? && BeanName(ms[i], s) !in beans
    requires !ClaimedIn(ms[..i], s, BeanName(ms[i], s))
    ensures BeanName(ms[i], s) in RegisterAll(beans, ms, s)
    ensures RegisterAll(beans, ms, s)[BeanName(ms[i], s)] == Build(ms[i], s).value
  {
    var n := |ms|;
    if i == n - 1 {
      FirstClaimantLast(beans, ms, s);
    } else {
      var prefix := ms[..n - 1];
      assert prefix[i] == ms[i];
      assert prefix[..i] == ms[..i];
      FirstRegistrationWins(beans, prefix, s, i);
      assert RegisterAll(beans, ms, s) == RegisterEntry(RegisterAll(beans, prefix, s), ms[n - 1], s);
    }
  }

  /** The last model of `ms`, claiming a name nobody had or claimed before, gets it. */
  lemma {:induction false} FirstClaimantLast(beans: Registry, ms: seq<Model>, s: Setup)
    requires ms != [] && Build(ms[|ms| - 1], s).Some? && BeanName(ms[|ms| - 1], s) !in beans
    requires !ClaimedIn(ms[..|ms| - 1], s, BeanName(ms[|ms| - 1], s))
    ensures BeanName(ms[|ms| - 1], s) in RegisterAll(beans, ms, s)
    ensures RegisterAll(beans, ms, s)[BeanName(ms[|ms| - 1], s)] == Build(ms[|ms| - 1], s).value
  {
    var m := ms[|ms| - 1];
    var before := RegisterAll(beans, ms[..|ms| - 1], s);
    RegisteredNames(beans, ms[..|ms| - 1], s, BeanName(m, s));
    assert !Fails(before, m, s);
  }

  /** The bean name under which a handle built by this pass is registered. */
  function KeyOf(h: Handle): string
  {
    if h.EmbeddingService? then EMBEDDING_PREFIX + Canonical(h.name) else CHAT_PREFIX + Canonical(h.name)
  }

  /**
   * Every bean this pass adds, whatever the registry held before (Spring's
   * own singletons and the application's), is stored under the bean name
   * its handle determines and is an Ollama handle at the base URL.
   */
  lemma {:induction false} AddedBeansAreOllama(beans: Registry, ms: seq<Model>, s: Setup, k: string)
    requires forall j :: 0 <= j < |ms| ==> ms[j].name == Canonical(ms[j].model)
    requires k in RegisterAll(beans, ms, s) && k !in beans
    ensures k == KeyOf(RegisterAll(beans, ms, s)[k])
    ensures RegisterAll(beans, ms, s)[k].provider == PROVIDER && RegisterAll(beans, ms, s)[k].baseUrl == s.baseUrl
  {
    var n := |ms|;
    var prefix := ms[..n - 1];
    var before := RegisterAll(beans, prefix, s);
    assert RegisterAll(beans, ms, s) == RegisterEntry(before, ms[n - 1], s);
    if k in before {
      forall j | 0 <= j < n - 1
        ensures prefix[j].name == Canonical(prefix[j].model)
      {
        assert prefix[j] == ms[j];
      }
      AddedBeansAreOllama(beans, prefix, s, k);
    } else {
      assert k == BeanName(ms[n - 1], s) && !Fails(before, ms[n - 1], s);
    }
  }

  /**
   * For a bean added by the pass, the namespace of its name tells the kind
   * of its handle.
   */
  lemma {:induction false} NamespaceTellsKind(beans: Registry, ms: seq<Model>, s: Setup, k: string)
    requires forall j :: 0 <= j < |ms| ==> ms[j].name == Canonical(ms[j].model)
    requires k in RegisterAll(beans, ms, s) && k !in beans
    ensures StartsWith(k, EMBEDDING_PREFIX) <==> RegisterAll(beans, ms, s)[k].EmbeddingService?
  {
    AddedBeansAreOllama(beans, ms, s, k);
    var h := RegisterAll(beans, ms, s)[k];
    NamespacesDisjoint(Canonical(h.name), Canonical(h.name));
  }
}
