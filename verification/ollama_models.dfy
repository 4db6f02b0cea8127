/**
 * The `OllamaModels` configuration object and the part of Spring's bean
 * factory it uses, with `registerModels` as an imperative loop that
 * updates the factory's registry one model at a time.
 */
module OllamaConfig {
  import opened Wrappers
  import opened Discovery
  import opened Registration

  /**
   * The singleton registry of a `ConfigurableBeanFactory`. Registering a
   * name that is already bound is refused (Spring throws) and leaves the
   * registry unchanged.
   */
  class BeanFactory {
    var singletons: Registry

    constructor (initial: Registry)
      ensures singletons == initial
    {
      singletons := initial;
    }

    /** `registerSingleton`: `ok` is false when the name was already bound. */
    method RegisterSingleton(name: string, obj: Handle) returns (ok: bool)
      modifies this
      ensures ok <==> name !in old(singletons)
      ensures singletons == if ok then old(singletons)[name := obj] else old(singletons)
    {
      ok := name !in singletons;
      if ok {
        singletons := singletons[name := obj];
      }
    }
  }

  /**
   * The configuration object: the server address, the bean factory it
   * registers into, the active Spring profiles and the configured names of
   * well-known embedding services.
   */
  class OllamaModels {
    const baseUrl: string
    const factory: BeanFactory
    const activeProfiles: seq<string>
    const embeddingNames: set<string>

    constructor (baseUrl: string, factory: BeanFactory, activeProfiles: seq<string>, embeddingNames: set<string>)
      ensures this.baseUrl == baseUrl && this.factory == factory
      ensures this.activeProfiles == activeProfiles && this.embeddingNames == embeddingNames
    {
      this.baseUrl := baseUrl;
      this.factory := factory;
      this.activeProfiles := activeProfiles;
      this.embeddingNames := embeddingNames;
    }

    /**
     * `registerModels`, with the HTTP answer passed in as `fetch` and the
     * raw names whose client objects cannot be built as `unbuildable`.
     * Without the "ollama" profile, or with nothing discovered, the
     * registry is untouched; otherwise it is the result of offering every
     * discovered model in order, each registration failing on its own.
     */
    method RegisterModels(fetch: Fetch, unbuildable: set<string>)
      modifies factory
      ensures OLLAMA_PROFILE !in activeProfiles ==> factory.singletons == old(factory.singletons)
      ensures LoadModels(fetch) == [] ==> factory.singletons == old(factory.singletons)
      ensures OLLAMA_PROFILE in activeProfiles ==>
                factory.singletons == RegisterAll(old(factory.singletons), LoadModels(fetch),
                                                  Setup(baseUrl, embeddingNames, unbuildable))
    {
      if OLLAMA_PROFILE !in activeProfiles {
        return;
      }
      var models := LoadModels(fetch);
      if models == [] {
        return;
      }
      var setup := Setup(baseUrl, embeddingNames, unbuildable);
      var i := 0;
      while i < |models|
        invariant 0 <= i <= |models|
        invariant factory.singletons == RegisterAll(old(factory.singletons), models[..i], setup)
      {
        var model := models[i];
        var beanName := CHAT_PREFIX + model.name;
        if model.model in embeddingNames {
          var embeddingService := EmbeddingServiceOf(model.model, setup);
          if embeddingService.Some? {
            var embeddingBeanName := EMBEDDING_PREFIX + model.name;
            var _ := factory.RegisterSingleton(embeddingBeanName, embeddingService.value);
          }
        } else {
          var llm := LlmOf(model.model, setup);
          if llm.Some? {
            var _ := factory.RegisterSingleton(beanName, llm.value);
          }
        }
        assert models[..i + 1][..i] == models[..i];
        i := i + 1;
      }
      assert models[..i] == models;
    }
  }
}
