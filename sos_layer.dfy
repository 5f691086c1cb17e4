/**
 * The SOS layer: on the GetCapabilities response it caches the parsed
 * capabilities under its own id, once, and binds a data-loading pipeline
 * (a fixed strategy and an SOS protocol); on destroy it drops its cache
 * entry. The cache is an object several layers may share.
 */
module SosLayer {
  import opened Wrappers
  import opened SosCapabilities
  import opened FeaturesOfInterest

  /** The unique id the layer gets at construction; the cache key. */
  type LayerId = string

  /** A projection code, such as "EPSG:900913": what the map reports when the pipeline is bound. */
  type Projection = string

  /**
   * An `OpenLayers.Strategy.Fixed`: built with its own load-start event
   * suppressed, then given a layer and activated.
   */
  datatype Strategy = Fixed(suppressLoadstartEvent: bool, layer: Option<LayerId>, active: bool)

  /** An `OpenLayers.Protocol.SOS` and the configuration it was built with. */
  datatype Protocol = SosProtocol(internalProjection: Projection, url: string, fois: seq<string>)

  /**
   * The state the layer's handlers read and write: the shared cache's
   * entries, the layer's strategies and protocol, and the log of every
   * protocol the layer ever bound (one entry per binding).
   */
  datatype LayerState = LayerState(
    entries: map<LayerId, Capabilities>,
    strategies: seq<Strategy>,
    protocol: Option<Protocol>,
    binds: seq<Protocol>)

  /** The live pipeline of a layer is the last one it bound, bound to that layer and active. */
  predicate PipelineConsistent(st: LayerState, id: LayerId) {
    if st.binds == [] then st.strategies == [] && st.protocol == None
    else
      && st.strategies == [Fixed(true, Some(id), true)]
      && st.protocol == Some(st.binds[|st.binds| - 1])
  }

  /**
   * The capabilities response handler of the layer `id`. Nothing happens
   * when the cache already holds an entry for `id`, nor when the reader
   * fails (it fails before anything is stored). Otherwise the parsed
   * capabilities are stored under `id` and one pipeline is bound, its
   * protocol configured with `url` and the features of interest of what
   * was just stored.
   */
  function OnResponse(st: LayerState, id: LayerId, url: string, parser: Body -> Option<Capabilities>,
                      response: Response, projection: Projection): (st': LayerState)
    ensures id in st.entries ==> st' == st
    ensures id !in st.entries && parser(ResponseBody(response)).None? ==> st' == st
    ensures id !in st.entries && parser(ResponseBody(response)).Some? ==>
      && id in st'.entries
      && st'.entries[id] == parser(ResponseBody(response)).value
      && st'.protocol.Some?
      && st'.binds == st.binds + [st'.protocol.value]
      && st'.protocol.value.url == url
      && st'.protocol.value.fois == Fois(st'.entries[id].contents.offeringList)
      && st'.protocol.value.internalProjection == projection
      && st'.strategies == [Fixed(true, Some(id), true)]
    ensures forall k :: k != id ==> (k in st'.entries <==> k in st.entries)
    ensures forall k :: k != id && k in st.entries ==> st'.entries[k] == st.entries[k]
    ensures PipelineConsistent(st, id) ==> PipelineConsistent(st', id)
  {
    if id in st.entries then st
    else
      match parser(ResponseBody(response))
      case None => st
      case Some(caps) =>
        var protocol := SosProtocol(projection, url, Fois(caps.contents.offeringList));
        LayerState(st.entries[id := caps], [Fixed(true, Some(id), true)], Some(protocol), st.binds + [protocol])
  }

  /** The layer's destroy: its cache entry is gone, whether or not there was one. */
  function OnDestroy(st: LayerState, id: LayerId): (st': LayerState)
    ensures id !in st'.entries
    ensures forall k :: k != id ==> (k in st'.entries <==> k in st.entries)
    ensures forall k :: k != id && k in st.entries ==> st'.entries[k] == st.entries[k]
    ensures st'.strategies == st.strategies && st'.protocol == st.protocol && st'.binds == st.binds
  {
    st.(entries := st.entries - {id})
  }

  /** What can happen to a layer once it is on a map: a capabilities response arrives, or it is destroyed. */
  datatype Event = Responded(response: Response, projection: Projection) | Destroyed

  function Step(st: LayerState, id: LayerId, url: string, parser: Body -> Option<Capabilities>, e: Event): (st': LayerState) {
    match e
    case Responded(response, projection) => OnResponse(st, id, url, parser, response, projection)
    case Destroyed => OnDestroy(st, id)
  }

  /** The state after the events, in order. */
  function Run(st: LayerState, id: LayerId, url: string, parser: Body -> Option<Capabilities>,
               events: seq<Event>): (st': LayerState)
    decreases |events|
  {
    if events == [] then st
    else Run(Step(st, id, url, parser, events[0]), id, url, parser, events[1..])
  }

  /** Number of destroy events. */
  function Destroys(events: seq<Event>): (n: nat) {
    if events == [] then 0 else (if events[0].Destroyed? then 1 else 0) + Destroys(events[1..])
  }

  /** 1 when the cache holds no entry for `id`, 0 otherwise. */
  function Absent(st: LayerState, id: LayerId): (a: nat) {
    if id in st.entries then 0 else 1
  }

  /** Responses arriving while the entry is present change nothing. */
  lemma {:induction false} ResponsesWhileCachedIdle(st: LayerState, id: LayerId, url: string,
                                                    parser: Body -> Option<Capabilities>, events: seq<Event>)
    requires id in st.entries
    requires forall i :: 0 <= i < |events| ==> events[i].Responded?
    ensures Run(st, id, url, parser, events) == st
    decreases |events|
  {
    if events != [] {
      ResponsesWhileCachedIdle(st, id, url, parser, events[1..]);
    }
  }

  /**
   * Any number of responses binds the pipeline at most once: exactly when
   * they create the cache entry.
   */
  lemma {:induction false} ResponsesBindAtMostOnce(st: LayerState, id: LayerId, url: string,
                                                   parser: Body -> Option<Capabilities>, events: seq<Event>)
    requires forall i :: 0 <= i < |events| ==> events[i].Responded?
    ensures st.binds <= Run(st, id, url, parser, events).binds
    ensures |Run(st, id, url, parser, events).binds| ==
      |st.binds| + (if id !in st.entries && id in Run(st, id, url, parser, events).entries then 1 else 0)
    decreases |events|
  {
    if events != [] {
      var next := Step(st, id, url, parser, events[0]);
      if id in next.entries {
        ResponsesWhileCachedIdle(next, id, url, parser, events[1..]);
      } else {
        ResponsesBindAtMostOnce(next, id, url, parser, events[1..]);
      }
    }
  }

  /** Once a response the reader accepts has arrived, the entry for `id` is present. */
  lemma {:induction false} ValidResponseCaches(st: LayerState, id: LayerId, url: string,
                                               parser: Body -> Option<Capabilities>, events: seq<Event>, n: nat)
    requires forall i :: 0 <= i < |events| ==> events[i].Responded?
    requires n < |events| && parser(ResponseBody(events[n].response)).Some?
    ensures id in Run(st, id, url, parser, events).entries
    decreases |events|
  {
    var next := Step(st, id, url, parser, events[0]);
    if id in next.entries {
      ResponsesWhileCachedIdle(next, id, url, parser, events[1..]);
    } else {
      ValidResponseCaches(next, id, url, parser, events[1..], n - 1);
    }
  }

  /**
   * Bindings are bounded by teardowns: each binding needs the entry to be
   * absent, and only a destroy makes it absent again.
   */
  lemma {:induction false} BindsBoundedByDestroys(st: LayerState, id: LayerId, url: string,
                                                  parser: Body -> Option<Capabilities>, events: seq<Event>)
    ensures st.binds <= Run(st, id, url, parser, events).binds
    ensures |Run(st, id, url, parser, events).binds| + Absent(Run(st, id, url, parser, events), id)
      <= |st.binds| + Absent(st, id) + Destroys(events)
    decreases |events|
  {
    if events != [] {
      BindsBoundedByDestroys(Step(st, id, url, parser, events[0]), id, url, parser, events[1..]);
    }
  }

  /** The handlers of layer `id` leave every other layer's cache entry as it was. */
  lemma {:induction false} OtherEntriesUntouched(st: LayerState, id: LayerId, url: string,
                                                 parser: Body -> Option<Capabilities>, events: seq<Event>, k: LayerId)
    requires k != id
    ensures k in Run(st, id, url, parser, events).entries <==> k in st.entries
    ensures k in st.entries ==> Run(st, id, url, parser, events).entries[k] == st.entries[k]
    decreases |events|
  {
    if events != [] {
      OtherEntriesUntouched(Step(st, id, url, parser, events[0]), id, url, parser, events[1..], k);
    }
  }

  lemma {:induction false} RunSnoc(st: LayerState, id: LayerId, url: string,
                                   parser: Body -> Option<Capabilities>, events: seq<Event>, e: Event)
    ensures Run(st, id, url, parser, events + [e]) == Step(Run(st, id, url, parser, events), id, url, parser, e)
    decreases |events|
  {
    if events != [] {
      assert (events + [e])[1..] == events[1..] + [e];
      RunSnoc(Step(st, id, url, parser, events[0]), id, url, parser, events[1..], e);
    }
  }

  /** Whatever happened before, a destroy leaves no entry for `id`. */
  lemma TeardownClears(st: LayerState, id: LayerId, url: string,
                       parser: Body -> Option<Capabilities>, events: seq<Event>)
    ensures id !in Run(st, id, url, parser, events + [Destroyed]).entries
  {
    RunSnoc(st, id, url, parser, events, Destroyed);
  }

  /**
   * The handlers keep no torn-down mark: in the modelled handlers, with the
   * map still present, a response arriving after destroy stores the entry
   * again and binds a second pipeline.
   */
  lemma ResponseAfterTeardownRebinds(st: LayerState, id: LayerId, url: string,
                                     parser: Body -> Option<Capabilities>, response: Response, projection: Projection)
    requires parser(ResponseBody(response)).Some?
    ensures id in Run(st, id, url, parser, [Destroyed, Responded(response, projection)]).entries
    ensures |Run(st, id, url, parser, [Destroyed, Responded(response, projection)]).binds| == |st.binds| + 1
  {
    var events := [Destroyed, Responded(response, projection)];
    var torn := OnDestroy(st, id);
    assert events[1..] == [Responded(response, projection)];
    var rebound := OnResponse(torn, id, url, parser, response, projection);
    assert Run(st, id, url, parser, events) == Run(torn, id, url, parser, events[1..]);
    assert events[1..][1..] == [];
    assert Run(torn, id, url, parser, events[1..]) == Run(rebound, id, url, parser, []);
  }

  /** A cache of parsed capabilities, keyed by layer id, that several layers may share. */
  class Cache {
    var entries: map<LayerId, Capabilities>

    constructor ()
      ensures entries == map[]
    {
      entries := map[];
    }
  }

  /** `OpenLayers.Layer.SOS`, as far as its own code goes. */
  class Layer {
    const id: LayerId
    const url: string
    const cache: Cache
    /** The capabilities reader's `read`; `None` stands for a read that throws. */
    const parser: Body -> Option<Capabilities>
    var strategies: seq<Strategy>
    var protocol: Option<Protocol>
    /** Every protocol this layer has bound, in order. */
    ghost var binds: seq<Protocol>

    ghost function State(): (st: LayerState)
      reads this, cache
    {
      LayerState(cache.entries, strategies, protocol, binds)
    }

    ghost predicate Valid()
      reads this, cache
    {
      PipelineConsistent(State(), id)
    }

    constructor (id: LayerId, url: string, cache: Cache, parser: Body -> Option<Capabilities>)
      ensures this.id == id && this.url == url && this.cache == cache && this.parser == parser
      ensures strategies == [] && protocol == None && binds == []
      ensures Valid()
    {
      this.id := id;
      this.url := url;
      this.cache := cache;
      this.parser := parser;
      strategies := [];
      protocol := None;
      binds := [];
    }

    /**
     * The features of interest of this layer's cached capabilities; `None`
     * when there is no entry (the source then fails reading `contents`).
     */
    method GetFois() returns (fois: Option<seq<string>>)
      ensures id !in cache.entries ==> fois == None
      ensures id in cache.entries ==> fois == Some(Fois(cache.entries[id].contents.offeringList))
    {
      if id in cache.entries {
        var result := CollectFois(cache.entries[id].contents.offeringList);
        fois := Some(result);
      } else {
        fois := None;
      }
    }

    /**
     * The GetCapabilities response handler. `parseFailed` is set when the
     * reader fails; the failure then propagates to the caller and nothing
     * has changed.
     */
    method ParseCapabilities(response: Response, projection: Projection) returns (parseFailed: bool)
      requires Valid()
      modifies this, cache
      ensures Valid()
      ensures State() == OnResponse(old(State()), id, url, parser, response, projection)
      ensures parseFailed <==> id !in old(cache.entries) && parser(ResponseBody(response)).None?
      ensures id in old(cache.entries) ==> unchanged(this) && unchanged(cache)
    {
      parseFailed := false;
      if id !in cache.entries {
        var parsed := parser(ResponseBody(response));
        if parsed.None? {
          parseFailed := true;
          return;
        }
        cache.entries := cache.entries[id := parsed.value];
        var strategy := Fixed(true, None, false);
        strategies := [strategy];
        var fois := GetFois();
        protocol := Some(SosProtocol(projection, url, fois.value));
        binds := binds + [protocol.value];
        strategy := strategy.(layer := Some(id));
        strategy := strategy.(active := true);
        strategies := [strategy];
      }
    }

    /** Drops this layer's cache entry; every other entry stays. */
    method Destroy()
      requires Valid()
      modifies cache
      ensures Valid()
      ensures State() == OnDestroy(old(State()), id)
      ensures cache.entries == old(cache.entries) - {id}
    {
      cache.entries := cache.entries - {id};
    }
  }
}
