/**
 * Discovery: turning the inventory reported by the Ollama server
 * (`GET {baseUrl}/api/tags`) into the list of normalised models
 * (`OllamaModels.loadModels`).
 */
module Discovery {
  import opened Wrappers
  import opened ModelNames

  /** Kotlin's `Long`. */
  newtype Int64 = x: int | -0x8000_0000_0000_0000 <= x < 0x8000_0000_0000_0000

  /** One inventory entry as decoded from the JSON body (`ModelDetails`). */
  datatype ModelDetails = ModelDetails(name: string, size: Int64, modifiedAt: string)

  /** The decoded body; `models` is absent when the field is null. */
  datatype ModelResponse = ModelResponse(models: Option<seq<ModelDetails>>)

  /**
   * What the HTTP round trip produced: an exception anywhere in the request
   * or the decoding, or a (possibly null) body.
   */
  datatype Fetch = Failed | Received(body: Option<ModelResponse>)

  /**
   * A discovered model (`Model`): `name` is the canonical name used in bean
   * names, `model` the raw name the server knows it by.
   */
  datatype Model = Model(name: string, model: string, size: Int64)

  /**
   * The `Model(...)` built for a non-blank entry: the raw name and the size
   * are kept as they are, and the canonical name has no colon and is left
   * unchanged by canonicalising it again.
   */
  function ToModel(d: ModelDetails): (m: Model)
    ensures m.model == d.name && m.size == d.size
    ensures ':' !in m.name && |m.name| == |d.name| && Canonical(m.name) == m.name
  {
    CanonicalIdempotent(d.name);
    Model(Canonical(d.name), d.name, d.size)
  }

  /** `m` is the model normalised from entry `d`. */
  predicate Carries(m: Model, d: ModelDetails)
  {
    m.model == d.name && m.size == d.size && m.name == Canonical(d.name)
  }

  /**
   * The `mapNotNull` over the inventory: blank names are dropped, every
   * other entry becomes its `Model`. The result is never longer than the
   * inventory, and every emitted model has a non-blank raw name and the
   * canonical name of it.
   */
  function Normalize(ds: seq<ModelDetails>): (r: seq<Model>)
    ensures |r| <= |ds|
    ensures forall j :: 0 <= j < |r| ==> !IsBlank(r[j].model) && r[j].name == Canonical(r[j].model)
  {
    if ds == [] then []
    else if IsBlank(ds[0].name) then Normalize(ds[1..])
    else [ToModel(ds[0])] + Normalize(ds[1..])
  }

  /**
   * `loadModels` with the HTTP call replaced by its outcome: any failure,
   * a null body and a null `models` list all give the empty list; a list
   * gives its normalisation.
   */
  function LoadModels(fetch: Fetch): (r: seq<Model>)
    ensures fetch.Failed? ==> r == []
    ensures fetch.Received? && fetch.body.None? ==> r == []
    ensures fetch.Received? && fetch.body.Some? && fetch.body.value.models.None? ==> r == []
    ensures fetch.Received? && fetch.body.Some? && fetch.body.value.models.Some? ==>
              r == Normalize(fetch.body.value.models.value)
  {
    match fetch
    case Failed => []
    case Received(body) =>
      match body
      case None => []
      case Some(response) =>
        match response.models
        case None => []
        case Some(ds) => Normalize(ds)
  }

  /**
   * `idx` lists, in increasing order, the positions in `ds` that `r` was
   * taken from: `r[j]` is normalised from `ds[idx[j]]`, and a position is
   * listed exactly when its entry has a non-blank name.
   */
  ghost predicate OrderedSelection(r: seq<Model>, ds: seq<ModelDetails>, idx: seq<nat>)
  {
    && |idx| == |r|
    && (forall j :: 0 <= j < |idx| ==> idx[j] < |ds| && Carries(r[j], ds[idx[j]]))
    && (forall j, k :: 0 <= j < k < |idx| ==> idx[j] < idx[k])
    && (forall i :: 0 <= i < |ds| ==> (i in idx <==> !IsBlank(ds[i].name)))
  }

  /** Every position in `s` moved one place to the right. */
  function Shift(s: seq<nat>): (r: seq<nat>)
    ensures |r| == |s|
    ensures forall j :: 0 <= j < |s| ==> r[j] == s[j] + 1
  {
    seq(|s|, j requires 0 <= j < |s| => s[j] + 1)
  }

  lemma {:induction false} ShiftMembership(s: seq<nat>, i: int)
    ensures 0 !in Shift(s)
    ensures (i + 1 in Shift(s)) <==> (i in s)
  {
    if i in s {
      var j :| 0 <= j < |s| && s[j] == i;
      assert Shift(s)[j] == i + 1;
    }
  }

  /**
   * Normalisation is exactly the order-preserving selection of the
   * non-blank entries, each carrying its raw name and size unchanged.
   */
  lemma {:induction false} NormalizeSelects(ds: seq<ModelDetails>) returns (idx: seq<nat>)
    ensures OrderedSelection(Normalize(ds), ds, idx)
  {
    if ds == [] {
      idx := [];
    } else {
      var rest := NormalizeSelects(ds[1..]);
      if IsBlank(ds[0].name) {
        idx := SkipHead(ds, rest);
      } else {
        idx := KeepHead(ds, rest);
      }
    }
  }

  /** The selection step for an inventory whose first entry is blank. */
  lemma {:induction false} SkipHead(ds: seq<ModelDetails>, rest: seq<nat>) returns (idx: seq<nat>)
    requires ds != [] && IsBlank(ds[0].name)
    requires OrderedSelection(Normalize(ds[1..]), ds[1..], rest)
    ensures OrderedSelection(Normalize(ds), ds, idx)
  {
    var tail := ds[1..];
    idx := Shift(rest);
    assert Normalize(ds) == Normalize(tail);
    forall j | 0 <= j < |idx|
      ensures idx[j] < |ds| && Carries(Normalize(ds)[j], ds[idx[j]])
    {
      assert ds[idx[j]] == tail[rest[j]];
    }
    forall i | 0 <= i < |ds|
      ensures i in idx <==> !IsBlank(ds[i].name)
    {
      ShiftMembership(rest, i - 1);
      if i > 0 {
        assert ds[i] == tail[i - 1];
      }
    }
  }

  /** The selection step for an inventory whose first entry is kept. */
  lemma {:induction false} KeepHead(ds: seq<ModelDetails>, rest: seq<nat>) returns (idx: seq<nat>)
    requires ds != [] && !IsBlank(ds[0].name)
    requires OrderedSelection(Normalize(ds[1..]), ds[1..], rest)
    ensures OrderedSelection(Normalize(ds), ds, idx)
  {
    idx := [0] + Shift(rest);
    KeepHeadCarries(ds, rest);
    KeepHeadOrdered(rest);
    forall i | 0 <= i < |ds|
      ensures i in idx <==> !IsBlank(ds[i].name)
    {
      ShiftMembership(rest, i - 1);
      if i > 0 {
        assert ds[i] == ds[1..][i - 1];
      }
    }
  }

  lemma {:induction false} KeepHeadCarries(ds: seq<ModelDetails>, rest: seq<nat>)
    requires ds != [] && !IsBlank(ds[0].name)
    requires OrderedSelection(Normalize(ds[1..]), ds[1..], rest)
    ensures forall j :: 0 <= j < 1 + |rest| ==>
              ([0] + Shift(rest))[j] < |ds| && Carries(Normalize(ds)[j], ds[([0] + Shift(rest))[j]])
  {
    var idx := [0] + Shift(rest);
    NormalizeKeepsHead(ds);
    forall j | 0 <= j < |idx|
      ensures idx[j] < |ds| && Carries(Normalize(ds)[j], ds[idx[j]])
    {
      if j > 0 {
        assert rest[j - 1] < |ds[1..]| && Carries(Normalize(ds[1..])[j - 1], ds[1..][rest[j - 1]]);
      }
      KeepHeadCarriesAt(ds, Normalize(ds[1..]), rest, j);
    }
  }

  /** Position `j` of the selection `[0] + Shift(rest)` for the list `[ToModel(ds[0])] + tail`. */
  lemma {:induction false} KeepHeadCarriesAt(ds: seq<ModelDetails>, tail: seq<Model>, rest: seq<nat>, j: nat)
    requires ds != [] && |rest| == |tail| && j < 1 + |rest|
    requires j > 0 ==> rest[j - 1] < |ds[1..]| && Carries(tail[j - 1], ds[1..][rest[j - 1]])
    ensures ([0] + Shift(rest))[j] < |ds| && Carries(([ToModel(ds[0])] + tail)[j], ds[([0] + Shift(rest))[j]])
  {
    var idx := [0] + Shift(rest);
    if j > 0 {
      assert idx[j] == rest[j - 1] + 1;
      assert ds[idx[j]] == ds[1..][rest[j - 1]];
    }
  }

  lemma {:induction false} NormalizeKeepsHead(ds: seq<ModelDetails>)
    requires ds != [] && !IsBlank(ds[0].name)
    ensures Normalize(ds) == [ToModel(ds[0])] + Normalize(ds[1..])
  {
  }

  lemma {:induction false} KeepHeadOrdered(rest: seq<nat>)
    requires forall j, k :: 0 <= j < k < |rest| ==> rest[j] < rest[k]
    ensures forall j, k :: 0 <= j < k < 1 + |rest| ==> ([0] + Shift(rest))[j] < ([0] + Shift(rest))[k]
  {
    var idx := [0] + Shift(rest);
    forall j, k | 0 <= j < k < |idx|
      ensures idx[j] < idx[k]
    {
      assert idx[k] == rest[k - 1] + 1;
      if j > 0 {
        assert idx[j] == rest[j - 1] + 1;
      }
    }
  }

  /** Every entry with a non-blank name is emitted, as its `Model`. */
  lemma {:induction false} NormalizeKeepsNonBlank(ds: seq<ModelDetails>, i: nat)
    requires i < |ds| && !IsBlank(ds[i].name)
    ensures ToModel(ds[i]) in Normalize(ds)
  {
    var idx := NormalizeSelects(ds);
    assert i in idx;
    var j :| 0 <= j < |idx| && idx[j] == i;
    assert Normalize(ds)[j] == ToModel(ds[i]);
  }

  /** Entries are normalised independently of each other. */
  lemma {:induction false} NormalizeConcat(xs: seq<ModelDetails>, ys: seq<ModelDetails>)
    ensures Normalize(xs + ys) == Normalize(xs) + Normalize(ys)
  {
    if xs == [] {
      assert xs + ys == ys;
    } else {
      assert (xs + ys)[0] == xs[0];
      assert (xs + ys)[1..] == xs[1..] + ys;
      NormalizeConcat(xs[1..], ys);
    }
  }

  /** A blank entry does not affect the processing of the entries around it. */
  lemma {:induction false} BlankEntryIgnored(xs: seq<ModelDetails>, d: ModelDetails, ys: seq<ModelDetails>)
    requires IsBlank(d.name)
    ensures Normalize(xs + [d] + ys) == Normalize(xs + ys)
  {
    NormalizeConcat(xs + [d], ys);
    NormalizeConcat(xs, [d]);
    NormalizeConcat(xs, ys);
  }

  /** No emitted canonical name contains a colon, and each is already canonical. */
  lemma {:induction false} LoadedNamesCanonical(fetch: Fetch)
    ensures forall m :: m in LoadModels(fetch) ==>
              ':' !in m.name && |m.name| > 0 && Canonical(m.name) == m.name
  {
    forall m | m in LoadModels(fetch)
      ensures ':' !in m.name && |m.name| > 0 && Canonical(m.name) == m.name
    {
      CanonicalIdempotent(m.model);
      CanonicalBlankIff(m.model);
    }
  }
}
