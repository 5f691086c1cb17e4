# OpenLayers SOS layer: capabilities cache and pipeline binding

A Dafny model of `OpenLayers.Layer.SOS`, the vector layer that reads a
Sensor Observation Service's GetCapabilities document and then feeds itself
with observations. It covers two parts of the layer.

- **Feature-of-interest extraction** (`getFois`). The layer walks the
  offerings of the parsed capabilities in order, and within each offering
  its feature-of-interest ids in order. It appends an id only when the
  result does not hold it yet. `FeaturesOfInterest` defines this as
  `Fois = Dedup(Concat(offerings))`. It proves that the result has no
  duplicates, loses nothing, invents nothing and keeps first-seen order,
  and that these properties determine the result. `CollectFois` is the
  nested loop of the source, proved equal to `Fois`.
- **Capabilities cache and bind-once guard** (`parseCapabilities`,
  `destroy`). The cache maps layer ids to parsed capabilities and may be
  shared by several layers (class `SosLayer.Cache`). `SosLayer.Layer` keeps
  the layer's `id`, `url`, reader, `strategies` and `protocol`. A ghost
  `binds` log records every protocol the layer builds.
  - `OnResponse` and `OnDestroy` state each handler's effect on a
    `LayerState` value, and the class methods are proved to perform exactly
    that effect.
  - `Run` plays a sequence of events (responses and destroys). The lemmas
    over `Run` prove the following. Repeated responses bind at most once.
    Bindings are bounded by destroys. Other layers' entries are never
    touched. A destroy always clears the entry. A response that arrives
    after a destroy re-creates the entry, because the layer has no
    torn-down flag. In the modelled handlers, with the map still present,
    that response also binds a second pipeline.

The capabilities reader is the layer's `parser` field, an uninterpreted
function from the response body to `Option<Capabilities>`. `None` stands for
a read that throws. The map's projection at binding time is a parameter of
`ParseCapabilities`. The layer id is a constructor parameter; the superclass
assigns it in the source.

## Model

| member | source | states |
|---|---|---|
| `FeaturesOfInterest.IndexOf` | lib/OpenLayers/Layer/SOS.js:112 | the membership test gives -1 exactly when the id is not in the result; otherwise it gives the first index holding the id |
| `FeaturesOfInterest.DedupMembers` | lib/OpenLayers/Layer/SOS.js:110-115 | the deduplicated sequence has exactly the elements of its input |
| `FeaturesOfInterest.DedupNoDuplicates` | lib/OpenLayers/Layer/SOS.js:112-113 | an id is appended only when absent, so the result never holds an id twice |
| `FeaturesOfInterest.DedupFirstSeenOrder` | lib/OpenLayers/Layer/SOS.js:107-117 | kept ids appear in the order of their first occurrence in the input |
| `FeaturesOfInterest.DedupUnique` | lib/OpenLayers/Layer/SOS.js:105-117 | any duplicate-free sequence with the input's elements, ordered by first occurrence, equals the deduplicated one; the three properties above define the result |
| `FeaturesOfInterest.ConcatMembers` | lib/OpenLayers/Layer/SOS.js:107-111 | an id is among those visited exactly when some offering lists it |
| `FeaturesOfInterest.FoisNoDuplicates` | lib/OpenLayers/Layer/SOS.js:112-113 | the features of interest contain no duplicate id |
| `FeaturesOfInterest.FoisComplete` | lib/OpenLayers/Layer/SOS.js:107-115 | every id of every offering is among the features of interest |
| `FeaturesOfInterest.FoisSound` | lib/OpenLayers/Layer/SOS.js:105-117 | every feature of interest is listed by some offering |
| `FeaturesOfInterest.FoisFirstSeenOrder` | lib/OpenLayers/Layer/SOS.js:107-117 | features of interest are ordered by where each is first met, walking offerings in order and ids in order |
| `FeaturesOfInterest.FoisExamples` | lib/OpenLayers/Layer/SOS.js:104-118 | offerings ["a","b"] and ["b","c"] give ["a","b","c"]; an offering with no ids, or no offerings, gives [] |
| `FeaturesOfInterest.CollectFois` | lib/OpenLayers/Layer/SOS.js:105-117 | the nested loop returns `Fois` of the offerings; hence no duplicates, and an id is in the result exactly when some offering lists it |
| `SosLayer.OnResponse` | lib/OpenLayers/Layer/SOS.js:78-95 | with an entry for the id: no change. On a failed read: no change. Otherwise the id's entry is the parsed capabilities and one protocol is appended to the bind log; it carries the layer's url, the projection and `Fois` of the new entry. The single strategy suppresses load-start, is bound to this layer and is active. Other keys keep their entries, and the live pipeline stays the last one bound |
| `SosLayer.OnDestroy` | lib/OpenLayers/Layer/SOS.js:124-125 | the id has no entry afterwards, whether or not it had one; other keys are unchanged. The model's strategies, protocol and bind log are also unchanged; this holds only in the model, because the superclass destroy that releases them is not modelled |
| `SosLayer.ResponsesWhileCachedIdle` | lib/OpenLayers/Layer/SOS.js:79 | while the entry exists, any number of responses leaves the state exactly as it was |
| `SosLayer.ResponsesBindAtMostOnce` | lib/OpenLayers/Layer/SOS.js:79-93 | over any sequence of responses, the bind log grows by one exactly when those responses created the entry, and by zero otherwise; earlier binds are kept |
| `SosLayer.ValidResponseCaches` | lib/OpenLayers/Layer/SOS.js:79-81 | once a response the reader accepts has arrived, the entry for the id is present |
| `SosLayer.BindsBoundedByDestroys` | lib/OpenLayers/Layer/SOS.js:78-127 | over any event sequence, binds made plus absence at the end is at most absence at the start plus the number of destroys; so each cache entry gets one binding at most |
| `SosLayer.OtherEntriesUntouched` | lib/OpenLayers/Layer/SOS.js:78-127 | over any event sequence, the entry of every other layer id is present and equal exactly as before |
| `SosLayer.TeardownClears` | lib/OpenLayers/Layer/SOS.js:125 | after any events ending with a destroy, the id has no entry |
| `SosLayer.ResponseAfterTeardownRebinds` | lib/OpenLayers/Layer/SOS.js:78-127 | a destroy followed by an accepted response re-creates the entry (lines 79-80), because no torn-down flag guards against it. In the modelled handlers alone, with the map still present, it also binds a second pipeline |
| `SosLayer.Cache.constructor` | lib/OpenLayers/Layer/SOS.js:33 | a new cache holds no entries |
| `SosLayer.Layer.constructor` | lib/OpenLayers/Layer/SOS.js:50-55 | the layer keeps its url, id, cache and reader, and has no strategy, protocol or binding |
| `SosLayer.Layer.GetFois` | lib/OpenLayers/Layer/SOS.js:104-118 | with an entry for the id: `Fois` of its offerings; without one: `None` |
| `SosLayer.Layer.ParseCapabilities` | lib/OpenLayers/Layer/SOS.js:78-95 | the new cache entries and layer fields are `OnResponse` of the old ones. With an entry present, neither layer nor cache changes. `parseFailed` holds exactly when the read was attempted and failed |
| `SosLayer.Layer.Destroy` | lib/OpenLayers/Layer/SOS.js:124-127 | the cache loses exactly the key `id`, and the layer's pipeline consistency is kept |

## Left out

- The GetCapabilities request in `afterAdd` (lib/OpenLayers/Layer/SOS.js:61-68) is network I/O. Only the handler that runs when the response arrives is modelled.
- URL building with `OpenLayers.Util.urlAppend` and `getParameterString` is left out. These library helpers are not part of this model.
- The `loadstart` event is left out. It belongs to the event channel.
- `OpenLayers.Format.SOSCapabilities.read` is not part of this model. It is the uninterpreted `parser`, and a read that throws is `None`. Because the read runs before the store, a failed read leaves the cache as it was.
- `OpenLayers.Strategy.Fixed`, `OpenLayers.Protocol.SOS` and `map.getProjectionObject()` are not part of this model. Only their configuration is recorded: a strategy with load-start suppressed, bound to the layer and active, and a protocol with projection, url and fois. Strategies and protocols are values, so the object identity shared by `this.strategies[0]` and `strategy` is not modelled.
- SosLayer.Layer.ParseCapabilities: the map is assumed present and the projection is a parameter. In the source, a layer without a map fails at line 87, after the entry is stored and `strategies` is set; that partly bound state is not modelled.
- SosLayer.Layer.ParseCapabilities: the reader's result always has `contents.offeringList`, and every offering has `featureOfInterestIds`. In the source, a parsed object without `contents` (line 107) or an offering without ids (line 110) makes `getFois` throw a TypeError. That throw comes after the entry is stored (line 80) and `strategies` is set (line 84). No protocol is then assigned and nothing is activated, and the guard at line 79 blocks every later response. The model cannot reach that cached-but-unbound state, so `OnResponse` binds on every successful read.
- SosLayer.ResponsesBindAtMostOnce: the direction "the bind log grows when the responses created the entry" rests on the reader always giving well-formed contents, as stated in the line above.
- SosLayer.ResponseAfterTeardownRebinds: the superclass destroy (line 126) is not part of this model. A layer's teardown normally detaches it from its map and releases its strategies and protocol. If it does, a late response in the full program would fail at line 87 after re-storing the entry. The second bind is therefore established for the modelled handlers only, not for the program. Re-creating the entry rests on lines 79-80 alone and holds in the program too.
- SosLayer.OnDestroy: leaving the strategies, protocol and bind log unchanged is a property of the model only, because the superclass destroy that releases them is not modelled.
- The superclass `OpenLayers.Layer.Vector` initialize and destroy are not part of this model. A new layer starts with no strategies, so strategies passed through `options` are not modelled, and `destroy` models only the cache removal.
- The cache is always an explicit `Cache` object. The prototype-level default `{}`, which shares one cache among all layers, corresponds to giving every layer the same `Cache`.
- JavaScript `for…in` puts integer-like keys first in ascending order. The model takes offerings in declaration order.
- The guard `!this.sosCache[this.id]` tests truthiness. The model tests key presence, which agrees because a parsed capabilities object is always truthy.
- SosLayer.Layer.GetFois: when the entry is missing, the source throws a TypeError when it reads `contents`; the model returns `None`.
