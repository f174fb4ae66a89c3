// GaussianBlurPositionFilter: a two-input composite whose second input is an
// inner Gaussian blur of the first. Its only own logic is the slot re-binding
// rule applied when a frame arrives: a frame from a source that is not bound
// (or arriving before both slots are bound) re-binds slot 0 to that source and
// slot 1 to the inner blur, and the frame is then handed to the inherited
// multi-input handling.
//
// The inherited slot list and the base-class operations on it are modelled by
// the contracts stated on the methods below; sources are compared by identity.
module BlurPosition {

  /** The number of inputs the composite declares. */
  const NumInputs: int := 2

  /** A point in texture coordinates (the centre of the excluded circle). */
  datatype Point = Point(x: real, y: real)

  /**
   * A frame handed on to the inherited multi-input handling: the texture,
   * the source it came from, and the slot list in force at that moment.
   */
  datatype Frame = Frame(texture: int, source: object, slots: seq<object>)

  /** The guard of the re-binding rule: fewer than two slots, or an unknown source. */
  predicate NeedsRebind(slots: seq<object>, source: object) {
    |slots| < 2 || source !in slots
  }

  /** The slot list after a frame from `source` arrived. */
  function Rebound(slots: seq<object>, source: object, blur: object): (r: seq<object>) {
    if NeedsRebind(slots, source) then [source, blur] else slots
  }

  /** `slots` with every registration of `s` removed. */
  function Without(slots: seq<object>, s: object): (r: seq<object>)
    ensures multiset(r) == multiset(slots)[s := 0]
    ensures s !in r && |r| <= |slots|
  {
    if slots == [] then []
    else
      assert slots == [slots[0]] + slots[1..];
      if slots[0] == s then Without(slots[1..], s)
    else [slots[0]] + Without(slots[1..], s)
  }

  /** The slot list after registering `s` at index `k`: any earlier registration of `s` is dropped, then `s` goes in at `k`. */
  function Registered(slots: seq<object>, s: object, k: int): (r: seq<object>)
    requires 0 <= k <= |Without(slots, s)|
    ensures |r| == |Without(slots, s)| + 1 && r[k] == s
    ensures multiset(r) == multiset(slots)[s := 1]
  {
    var rest := Without(slots, s);
    assert rest == rest[..k] + rest[k..];
    assert multiset(rest)[s := 1] == multiset(rest) + multiset{s};
    assert multiset(slots)[s := 0][s := 1] == multiset(slots)[s := 1];
    assert multiset(rest[..k] + [s] + rest[k..]) == multiset(rest[..k]) + multiset{s} + multiset(rest[k..]);
    rest[..k] + [s] + rest[k..]
  }

  /**
   * The slot lists the rule leaves: unbound, or the arriving source at slot 0
   * and the inner blur, a different object, at slot 1.
   */
  predicate WellBound(slots: seq<object>, blur: object) {
    slots == [] || (|slots| == 2 && slots[0] != blur && slots[1] == blur)
  }

  /** The slot list after a sequence of frames, from the given sources in order. */
  function Replay(slots: seq<object>, sources: seq<object>, blur: object): (r: seq<object>)
    decreases |sources|
  {
    if sources == [] then slots else Replay(Rebound(slots, sources[0], blur), sources[1..], blur)
  }

  /** How many of a sequence of frames re-bind the slots. */
  function RebindCount(slots: seq<object>, sources: seq<object>, blur: object): (count: nat)
    decreases |sources|
  {
    if sources == [] then 0
    else (if NeedsRebind(slots, sources[0]) then 1 else 0)
         + RebindCount(Rebound(slots, sources[0], blur), sources[1..], blur)
  }

  /**
   * The base-class steps of a re-bind, in the order the composite calls them
   * (clear, register the source at 0, register the blur at 1), leave exactly
   * [source, blur]: the source at slot 0, the blur at slot 1 and no earlier
   * registration.
   */
  lemma {:induction false} RebindSteps(source: object, blur: object)
    requires source != blur
    ensures |Without(Registered([], source, 0), blur)| == 1
    ensures Registered(Registered([], source, 0), blur, 1) == [source, blur]
  {
    var first := Registered([], source, 0);
    assert first == [source];
    assert Without(first, blur) == [source] + Without([], blur);
  }

  /**
   * A frame changes the slot list exactly when the guard holds: a re-bind
   * never leaves the list as it was, and without one nothing changes.
   */
  lemma {:induction false} ReboundCases(slots: seq<object>, source: object, blur: object)
    ensures Rebound(slots, source, blur) != slots <==> NeedsRebind(slots, source)
  {
    var r := Rebound(slots, source, blur);
    if NeedsRebind(slots, source) && |slots| >= 2 {
      assert r[0] == source;
      assert source in r && source !in slots;
    }
  }

  /**
   * Re-binding keeps the slot list well bound (unless the very first frame
   * comes from the blur itself), and a well-bound list never uses a slot
   * index at or beyond the declared number of inputs.
   */
  lemma {:induction false} ReboundWellBound(slots: seq<object>, source: object, blur: object)
    requires WellBound(slots, blur)
    requires source != blur || slots != []
    ensures WellBound(Rebound(slots, source, blur), blur)
    ensures |Rebound(slots, source, blur)| <= NumInputs
  {
    if slots != [] && source == blur {
      assert slots[1] == source;
    }
  }

  /** Once a frame from a source is handled, further frames from it do not re-bind. */
  lemma ReboundStable(slots: seq<object>, source: object, blur: object)
    requires source != blur
    ensures !NeedsRebind(Rebound(slots, source, blur), source)
    ensures Rebound(Rebound(slots, source, blur), source, blur) == Rebound(slots, source, blur)
  {
  }

  /** Frames from the bound source or from the blur leave a bound slot list untouched. */
  lemma {:induction false} SettledReplay(a: object, blur: object, sources: seq<object>)
    requires a != blur
    requires forall k :: 0 <= k < |sources| ==> sources[k] == a || sources[k] == blur
    ensures Replay([a, blur], sources, blur) == [a, blur]
    ensures RebindCount([a, blur], sources, blur) == 0
    decreases |sources|
  {
    if sources != [] {
      assert Rebound([a, blur], sources[0], blur) == [a, blur];
      SettledReplay(a, blur, sources[1..]);
    }
  }

  /**
   * A first frame from an external source a, followed by any frames from a
   * or from the blur, re-binds once and leaves [a, blur].
   */
  lemma {:induction false} FirstSourceThenBlur(a: object, blur: object, sources: seq<object>)
    requires a != blur
    requires forall k :: 0 <= k < |sources| ==> sources[k] == a || sources[k] == blur
    ensures Replay([], [a] + sources, blur) == [a, blur]
    ensures RebindCount([], [a] + sources, blur) == 1
  {
    assert ([a] + sources)[1..] == sources;
    SettledReplay(a, blur, sources);
  }

  /** A frame from a new external source evicts the previously bound one. */
  lemma SwitchSource(a: object, b: object, blur: object)
    requires a != blur && b != blur && a != b
    ensures Rebound([a, blur], b, blur) == [b, blur]
    ensures a !in Rebound([a, blur], b, blur)
  {
  }

  /** The inner blur: its size parameter and the renderers it feeds. */
  class GaussianBlurFilter {
    const blurSize: real
    var targets: seq<object>

    constructor (blurSize: real)
      ensures this.blurSize == blurSize && targets == []
    {
      this.blurSize := blurSize;
      targets := [];
    }

    /** Base-class operation: the target is appended to the list of renderers fed. */
    method AddTarget(target: object)
      modifies this
      ensures targets == old(targets) + [target]
    {
      targets := targets + [target];
    }
  }

  class GaussianBlurPositionFilter {
    const numOfInputs: int
    const blurSize: real
    const aspectRatio: real
    const excludedCirclePoint: Point
    const excludedCircleRadius: real
    const blur: GaussianBlurFilter

    // State inherited from the multi-input and composite base classes.
    var filterLocations: seq<object>
    var initialFilters: set<object>
    var terminalFilters: set<object>
    var inputOutputFilters: set<object>
    /** The frames handed to the inherited multi-input handling, oldest first. */
    var forwarded: seq<Frame>

    ghost predicate Valid()
      reads this, blur
    {
      && numOfInputs == NumInputs
      && WellBound(filterLocations, blur)
      && (filterLocations != [] ==> filterLocations[0] in inputOutputFilters)
      && initialFilters == {blur} && terminalFilters == {blur}
      && this in blur.targets
    }

    /**
     * Two inputs; the composite's own blur size is the excluded-region blur
     * size, while the blur size argument goes only to the new inner blur,
     * which feeds this filter and is both its initial and terminal filter.
     */
    constructor (blurSize: real, aspectRatio: real, excludedCirclePoint: Point,
                 excludedCircleRadius: real, excludedBlurSize: real)
      ensures Valid()
      ensures numOfInputs == NumInputs
      ensures this.blurSize == excludedBlurSize && this.aspectRatio == aspectRatio
      ensures this.excludedCirclePoint == excludedCirclePoint && this.excludedCircleRadius == excludedCircleRadius
      ensures fresh(blur) && blur.blurSize == blurSize && blur.targets == [this]
      ensures initialFilters == {blur} && terminalFilters == {blur}
      ensures filterLocations == [] && inputOutputFilters == {} && forwarded == []
    {
      numOfInputs := NumInputs;
      filterLocations := [];
      initialFilters := {};
      terminalFilters := {};
      inputOutputFilters := {};
      forwarded := [];
      this.blurSize := excludedBlurSize;
      this.aspectRatio := aspectRatio;
      this.excludedCirclePoint := excludedCirclePoint;
      this.excludedCircleRadius := excludedCircleRadius;
      blur := new GaussianBlurFilter(blurSize);
      new;
      blur.AddTarget(this);
      RegisterInitialFilter(blur);
      RegisterTerminalFilter(blur);
    }

    /** Base-class operation: no filter location stays registered. */
    method ClearRegisteredFilterLocations()
      modifies this
      ensures filterLocations == []
      ensures initialFilters == old(initialFilters) && terminalFilters == old(terminalFilters)
      ensures inputOutputFilters == old(inputOutputFilters) && forwarded == old(forwarded)
    {
      filterLocations := [];
    }

    /** Base-class operation: afterwards `s` is registered at index `k`, and only there. */
    method RegisterFilterLocation(s: object, k: int)
      requires 0 <= k <= |Without(filterLocations, s)|
      modifies this
      ensures filterLocations == Registered(old(filterLocations), s, k)
      ensures initialFilters == old(initialFilters) && terminalFilters == old(terminalFilters)
      ensures inputOutputFilters == old(inputOutputFilters) && forwarded == old(forwarded)
    {
      filterLocations := Registered(filterLocations, s, k);
    }

    /** Base-class operation: `s` is among the filters that take the composite's input and give its output. */
    method RegisterInputOutputFilter(s: object)
      modifies this
      ensures inputOutputFilters == old(inputOutputFilters) + {s}
      ensures filterLocations == old(filterLocations) && forwarded == old(forwarded)
      ensures initialFilters == old(initialFilters) && terminalFilters == old(terminalFilters)
    {
      inputOutputFilters := inputOutputFilters + {s};
    }

    /** Base-class operation: `s` receives the composite's input. */
    method RegisterInitialFilter(s: object)
      modifies this
      ensures initialFilters == old(initialFilters) + {s}
      ensures filterLocations == old(filterLocations) && forwarded == old(forwarded)
      ensures inputOutputFilters == old(inputOutputFilters) && terminalFilters == old(terminalFilters)
    {
      initialFilters := initialFilters + {s};
    }

    /** Base-class operation: `s` produces the composite's output. */
    method RegisterTerminalFilter(s: object)
      modifies this
      ensures terminalFilters == old(terminalFilters) + {s}
      ensures filterLocations == old(filterLocations) && forwarded == old(forwarded)
      ensures inputOutputFilters == old(inputOutputFilters) && initialFilters == old(initialFilters)
    {
      terminalFilters := terminalFilters + {s};
    }

    /** The inherited frame handling: the frame is recorded with the slot list in force. */
    method ForwardFrame(texture: int, source: object)
      modifies this
      ensures forwarded == old(forwarded) + [Frame(texture, source, filterLocations)]
      ensures filterLocations == old(filterLocations) && inputOutputFilters == old(inputOutputFilters)
      ensures initialFilters == old(initialFilters) && terminalFilters == old(terminalFilters)
    {
      forwarded := forwarded + [Frame(texture, source, filterLocations)];
    }

    /**
     * A frame arrives from `source`. If fewer than two slots are bound or the
     * source is not bound, the slots are re-bound to [source, blur] and the
     * source becomes an input/output filter; otherwise nothing changes. Either
     * way the frame is then forwarded exactly once, with the new slot list.
     */
    method NewTextureReady(texture: int, source: object)
      requires Valid()
      requires source != blur || filterLocations != []
      modifies this
      ensures Valid()
      ensures filterLocations == Rebound(old(filterLocations), source, blur)
      ensures inputOutputFilters
           == if NeedsRebind(old(filterLocations), source) then old(inputOutputFilters) + {source}
              else old(inputOutputFilters)
      ensures forwarded == old(forwarded) + [Frame(texture, source, filterLocations)]
      ensures initialFilters == old(initialFilters) && terminalFilters == old(terminalFilters)
    {
      if |filterLocations| < 2 || source !in filterLocations {
        ClearRegisteredFilterLocations();
        RegisterFilterLocation(source, 0);
        RebindSteps(source, blur);
        RegisterFilterLocation(blur, 1);
        RegisterInputOutputFilter(source);
      }
      ForwardFrame(texture, source);
    }
  }
}
