# Ollama model discovery and registration, modelled in Dafny

This project models how the embabel agent platform finds the models served
by a local Ollama server and registers them as Spring beans
(`OllamaModels`). The pass has two stages.

1. **Discovery (`loadModels`).** The server's inventory (`GET {baseUrl}/api/tags`)
   is read. Entries with a blank name are dropped. Every other entry becomes
   a `Model` that carries three things: a canonical name (`:` replaced by
   `-`, then lowercased), the raw name, and the size. Any failure of the
   request or of decoding gives the empty list.
2. **Registration (`registerModels`).** This runs only under the `ollama`
   Spring profile, and only when discovery found something. Each model is
   classified by whether its RAW name is a configured embedding-service
   name. It is then registered as `ollamaEmbeddingModel-<canonical>` (an
   `EmbeddingService` handle) or as `ollamaModel-<canonical>` (an `Llm`
   handle). Each entry has its own try/catch, so one failing entry does not
   stop the others.

Files:

- `wrappers.dfy`: `Option`, standing for Kotlin's nullable values.
- `model_names.dfy` (module `ModelNames`): Kotlin's `isBlank`, `replace(":", "-")`, `lowercase()` and the canonical name built from them.
- `discovery.dfy` (module `Discovery`): the `ModelDetails`, `ModelResponse` and `Model` records. `Normalize` is the `mapNotNull` and `LoadModels` is `loadModels` over the outcome of the HTTP call.
- `registration.dfy` (module `Registration`): bean names, handles, and one loop iteration (`RegisterEntry`). `RegisterAll` is the whole loop as a function on maps, with the lemmas about it.
- `ollama_models.dfy` (module `OllamaConfig`): classes `BeanFactory` (the singleton registry) and `OllamaModels`. `RegisterModels` is the imperative loop that updates the factory's map in place. Its loop invariant ties the map to `RegisterAll`.
- `scenarios.dfy` (module `Scenarios`): concrete scenarios, proved as lemmas.

Assumptions made explicit:

- Spring's `registerSingleton` refuses a name that is already bound. In the model it leaves the registry unchanged, and the entry counts as failed.
- Building a client object can throw inside the Ollama client library. The set `Setup.unbuildable` lists the raw names for which it throws.
- `Char.isWhitespace` is the JVM definition: the Unicode space, line and paragraph separators, U+0009..U+000D and U+001C..U+001F.
- Lowercasing is modelled over ASCII.
- `size` is a Kotlin `Long` (`OllamaModels.kt`, lines 63 and 70) and is modelled as the signed `Int64`.
- The registry is keyed by the full bean name (`ollamaModel-…` or `ollamaEmbeddingModel-…`), as `registerSingleton` keys it at lines 118 and 128.

## Model

| member | source | states |
|---|---|---|
| ModelNames.WhitespaceClasses | embabel-agent-api/src/main/kotlin/com/embabel/agent/config/models/OllamaModels.kt:84 | the whitespace test behind `isNotBlank` accepts ASCII blanks and the ideographic space, rejects the colon, the dash and every ASCII letter, and rejects NEL, the zero-width space and the byte-order mark |
| ModelNames.BlankMeansAllWhitespace | embabel-agent-api/src/main/kotlin/com/embabel/agent/config/models/OllamaModels.kt:84 | the empty name is blank, and a name is blank exactly when every character in it is whitespace |
| ModelNames.LowerCase | embabel-agent-api/src/main/kotlin/com/embabel/agent/config/models/OllamaModels.kt:86 | lowercasing keeps the length and lowers each ASCII capital in place, leaving other characters alone |
| ModelNames.ReplaceColons | embabel-agent-api/src/main/kotlin/com/embabel/agent/config/models/OllamaModels.kt:86 | `replace(":", "-")` keeps the length and turns exactly the colons into dashes |
| ModelNames.Canonical | embabel-agent-api/src/main/kotlin/com/embabel/agent/config/models/OllamaModels.kt:86 | the canonical name has the raw name's length, contains no colon and no capital, and at each position is the lowered, dash-for-colon raw character |
| ModelNames.CanonicalFixesCanonical | embabel-agent-api/src/main/kotlin/com/embabel/agent/config/models/OllamaModels.kt:86 | a name with no colon and no capital is its own canonical name |
| ModelNames.CanonicalIdempotent | embabel-agent-api/src/main/kotlin/com/embabel/agent/config/models/OllamaModels.kt:86 | canonicalising twice equals canonicalising once |
| ModelNames.ReplaceAndLowerCommute | embabel-agent-api/src/main/kotlin/com/embabel/agent/config/models/OllamaModels.kt:86 | replacing colons and lowercasing commute, so either order gives the same name |
| ModelNames.CanonicalBlankIff | embabel-agent-api/src/main/kotlin/com/embabel/agent/config/models/OllamaModels.kt:84-86 | the canonical name is blank exactly when the raw name is; a kept entry's canonical name is non-empty |
| Discovery.ToModel | embabel-agent-api/src/main/kotlin/com/embabel/agent/config/models/OllamaModels.kt:85-89 | the `Model` built for an entry keeps its raw name and size, and its canonical name has the raw length, no colon, and is unchanged by canonicalising again |
| Discovery.Normalize | embabel-agent-api/src/main/kotlin/com/embabel/agent/config/models/OllamaModels.kt:82-91 | the output is no longer than the inventory; every emitted model has a non-blank raw name and carries that name's canonical form |
| Discovery.NormalizeSelects | embabel-agent-api/src/main/kotlin/com/embabel/agent/config/models/OllamaModels.kt:82-91 | the output is the order-preserving selection of exactly the non-blank entries, and each carries its raw name, size and canonical name |
| Discovery.NormalizeKeepsNonBlank | embabel-agent-api/src/main/kotlin/com/embabel/agent/config/models/OllamaModels.kt:84-89 | every entry with a non-blank name appears in the output as its `Model` |
| Discovery.NormalizeConcat | embabel-agent-api/src/main/kotlin/com/embabel/agent/config/models/OllamaModels.kt:82-91 | normalising a concatenation is concatenating the normalisations (entries are handled independently) |
| Discovery.BlankEntryIgnored | embabel-agent-api/src/main/kotlin/com/embabel/agent/config/models/OllamaModels.kt:84-90 | inserting a blank entry anywhere leaves the output unchanged |
| Discovery.LoadModels | embabel-agent-api/src/main/kotlin/com/embabel/agent/config/models/OllamaModels.kt:73-95 | a failed request, a null body and a null `models` list each give the empty list; a present list gives its normalisation |
| Discovery.LoadedNamesCanonical | embabel-agent-api/src/main/kotlin/com/embabel/agent/config/models/OllamaModels.kt:82-91 | every discovered canonical name is non-empty, contains no colon, and is unchanged by canonicalising again |
| Registration.IsEmbedding | embabel-agent-api/src/main/kotlin/com/embabel/agent/config/models/OllamaModels.kt:115 | a model is an embedding model when its raw name is configured as one; a configured name matching only its canonical name does not make it one |
| Registration.BeanName | embabel-agent-api/src/main/kotlin/com/embabel/agent/config/models/OllamaModels.kt:114-117 | the bean name is the embedding prefix plus the canonical name for an embedding model and the chat prefix plus the canonical name otherwise: its length is that prefix length plus the canonical length, and its seventh character is 'E' or 'M' accordingly |
| Registration.Build | embabel-agent-api/src/main/kotlin/com/embabel/agent/config/models/OllamaModels.kt:115-125 | a handle is built exactly when the builder does not throw for the raw name; it is an embedding handle exactly for a configured raw name, and records the raw name, the provider "Ollama" and the base URL |
| Registration.Fails | embabel-agent-api/src/main/kotlin/com/embabel/agent/config/models/OllamaModels.kt:113-137 | an entry takes the catch branch exactly when building throws for its raw name or its bean name is already bound |
| Registration.LlmOf | embabel-agent-api/src/main/kotlin/com/embabel/agent/config/models/OllamaModels.kt:141-162 | building a chat handle succeeds exactly when the builder does not throw, and gives an `Llm` for the raw name, provider "Ollama", at the base URL |
| Registration.EmbeddingServiceOf | embabel-agent-api/src/main/kotlin/com/embabel/agent/config/models/OllamaModels.kt:165-184 | the same for an `EmbeddingService` handle |
| Registration.RegisterEntry | embabel-agent-api/src/main/kotlin/com/embabel/agent/config/models/OllamaModels.kt:113-137 | one iteration never overwrites an existing bean and adds at most its own bean name; the registry changes exactly when the entry does not fail, and then that name holds the built handle |
| Registration.RegisterAll | embabel-agent-api/src/main/kotlin/com/embabel/agent/config/models/OllamaModels.kt:112-138 | the whole loop only grows the registry: every bean present before is still there with the same object |
| Registration.RegistryGrowthBound | embabel-agent-api/src/main/kotlin/com/embabel/agent/config/models/OllamaModels.kt:112-138 | the loop adds at most one bean per model |
| Registration.NamespacesDisjoint | embabel-agent-api/src/main/kotlin/com/embabel/agent/config/models/OllamaModels.kt:114-117 | a chat bean name never equals an embedding bean name, whatever the canonical names; only embedding names carry the embedding prefix |
| Registration.ClassificationByRawName | embabel-agent-api/src/main/kotlin/com/embabel/agent/config/models/OllamaModels.kt:114-125 | a model gets an embedding bean name, and an embedding handle, exactly when its raw name is a configured embedding name; the handle records the raw name and the provider |
| Registration.KindsNeverCollide | embabel-agent-api/src/main/kotlin/com/embabel/agent/config/models/OllamaModels.kt:114-117 | an embedding model and a chat model never compete for a bean name, even with equal canonical names |
| Registration.RegisterAllConcat | embabel-agent-api/src/main/kotlin/com/embabel/agent/config/models/OllamaModels.kt:112 | offering `xs` then `ys` is offering `xs + ys` |
| Registration.FailedEntryIsSkipped | embabel-agent-api/src/main/kotlin/com/embabel/agent/config/models/OllamaModels.kt:112-138 | an entry whose registration fails acts as if absent: earlier entries stay registered and later ones are processed as without it |
| Registration.RegisteredNames | embabel-agent-api/src/main/kotlin/com/embabel/agent/config/models/OllamaModels.kt:112-138 | after the loop a bean name is bound exactly when it was bound before or some buildable model claims it |
| Registration.FirstRegistrationWins | embabel-agent-api/src/main/kotlin/com/embabel/agent/config/models/OllamaModels.kt:112-138 | a free bean name ends up holding the handle of the first buildable model that claims it |
| Registration.AddedBeansAreOllama | embabel-agent-api/src/main/kotlin/com/embabel/agent/config/models/OllamaModels.kt:112-138 | whatever the registry held before, every bean the pass adds is stored under the bean name its handle determines and is an Ollama handle at the base URL |
| Registration.NamespaceTellsKind | embabel-agent-api/src/main/kotlin/com/embabel/agent/config/models/OllamaModels.kt:114-128 | whatever the registry held before, a bean added by the pass has the embedding prefix exactly when it holds an embedding handle |
| OllamaConfig.BeanFactory.RegisterSingleton | embabel-agent-api/src/main/kotlin/com/embabel/agent/config/models/OllamaModels.kt:118 | registration succeeds exactly when the name is free; it then binds the name, and otherwise nothing changes |
| OllamaConfig.OllamaModels.RegisterModels | embabel-agent-api/src/main/kotlin/com/embabel/agent/config/models/OllamaModels.kt:98-139 | without the "ollama" profile, or with nothing discovered, the registry is unchanged; otherwise it is `RegisterAll` of the old registry over the discovered models in order |
| Scenarios.ClassificationScenario | embabel-agent-api/src/main/kotlin/com/embabel/agent/config/models/OllamaModels.kt:112-134 | with "embed-a" configured, "embed-a" and "chat-b" give exactly one embedding bean and one chat bean |
| Scenarios.DiscoveryScenario | embabel-agent-api/src/main/kotlin/com/embabel/agent/config/models/OllamaModels.kt:82-91 | that inventory is discovered as those two models, in order |
| Scenarios.IsolationScenario | embabel-agent-api/src/main/kotlin/com/embabel/agent/config/models/OllamaModels.kt:112-138 | when building the second of three models throws, the first and third are registered |
| Scenarios.DuplicateCanonicalScenario | embabel-agent-api/src/main/kotlin/com/embabel/agent/config/models/OllamaModels.kt:82-138 | "Phi:2" and "phi:2" share the bean name "ollamaModel-phi-2"; the first keeps it |
| Scenarios.BlankScenario | embabel-agent-api/src/main/kotlin/com/embabel/agent/config/models/OllamaModels.kt:82-91 | "" and " \t" are dropped and "Llama3:8B" becomes "llama3-8b" |
| Scenarios.NothingDiscoveredScenario | embabel-agent-api/src/main/kotlin/com/embabel/agent/config/models/OllamaModels.kt:91-110 | a failed request or an empty inventory registers nothing |

## Left out

- The HTTP request through `RestClient` and the Jackson decoding (lines 75-80) are network I/O and a foreign library. Their outcome is the input `Fetch`. Only what `RegisterModels` receives is modelled, so the absence of a request when the profile is off shows only in the order of the code.
- Logging (lines 93, 101, 104, 108, 119-123, 129-133, 136) is not modelled, so "one error logged per failed entry" is not stated.
- Spring's `Environment`, `@Value` and `@PostConstruct` are replaced by the constructor arguments of `OllamaModels`: the base URL, the factory, the active profiles and the embedding names. `ConfigurableModelProviderProperties.allWellKnownEmbeddingServiceNames()` is not part of this model and becomes the set `embeddingNames`.
- `OllamaChatModel`, `OllamaEmbeddingModel`, `OllamaApi` and their builders (lines 142-153, 166-177) are foreign objects. A handle keeps only the raw name, the provider and the base URL. The fixed pricing model `ALL_YOU_CAN_EAT` and the options converter are not recorded.
- `OllamaOptionsConverter` (lines 192-202) only copies floating-point sampling options into a foreign builder.
- ModelNames.LowerCase: does not model Unicode case mapping, because `lowercase()` follows the full Unicode rules (where one character may become two). Only ASCII capitals are lowered, and every other character is kept.
- `modifiedAt` is carried in `ModelDetails` but is never used, as in the source.
- The Spring ahead-of-time hint registrars (`ShellRuntimeHints.kt`, `AgentReflectionHints.kt`, `ToolRuntimeHints.kt`, `PersonalityResourcesRuntimeHints.kt`) have no behaviour of their own. They are not part of this model.
- `UserInput.kt` is a data holder whose only logic reads the wall clock. It is not part of this model.
