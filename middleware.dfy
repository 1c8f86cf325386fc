/**
 * The render handler of `@astrostory/core`: how the Astro container
 * resolves module specifiers, the queue that runs renders one at a time,
 * the steps of one render, and the replacement of image metadata in the
 * story arguments by the image URL.
 */
module Middleware {
  import opened Wrappers
  import opened Text
  import opened Records
  import opened Values
  import Rules

  // ---------------------------------------------------------------------
  // Module resolution inside the container
  // ---------------------------------------------------------------------

  /** An integration's `resolveClient`: the client module for a specifier, if it knows one. */
  type ClientResolver = string -> Option<string>

  /** A string result is used only when it is non-empty (`if (resolution)`). */
  predicate Usable(o: Option<string>)
  {
    o.Some? && o.value != ""
  }

  /** The loop over the integrations: the first usable resolution, if any. */
  function FirstResolution(integrations: seq<ClientResolver>, s: string): (r: Option<string>)
    ensures r.Some? <==> exists k :: 0 <= k < |integrations| && Usable(integrations[k](s))
    ensures r.Some? ==> exists k :: (0 <= k < |integrations| && r == integrations[k](s) && Usable(r)
                                     && forall j :: 0 <= j < k ==> !Usable(integrations[j](s)))
  {
    if integrations == [] then None
    else if Usable(integrations[0](s)) then integrations[0](s)
    else
      var rest := FirstResolution(integrations[1..], s);
      assert forall k :: 0 < k < |integrations| ==> integrations[1..][k - 1] == integrations[k];
      if rest.Some? then
        ghost var k :| 0 <= k < |integrations[1..]| && rest == integrations[1..][k](s) && Usable(rest)
          && forall j :: 0 <= j < k ==> !Usable(integrations[1..][j](s));
        assert forall j :: 0 < j <= k ==> integrations[j] == integrations[1..][j - 1];
        rest
      else rest
  }

  const ScriptsPrefix := "astro:scripts"
  const ViteIdPrefix := "/@id/"

  /**
   * The container's `resolve`: a module mock of the running story first,
   * then Astro's script modules through Vite's `/@id/` route, then the first
   * integration that knows the specifier, else the specifier itself.
   */
  function ResolveSpecifier(s: string, mocks: seq<Entry<string>>, integrations: seq<ClientResolver>): (r: string)
    ensures Usable(Lookup(mocks, s)) ==> r == Lookup(mocks, s).value
    ensures !Usable(Lookup(mocks, s)) && StartsWith(s, ScriptsPrefix) ==> r == ViteIdPrefix + s
    ensures !Usable(Lookup(mocks, s)) && !StartsWith(s, ScriptsPrefix) ==>
      r == s || exists k :: 0 <= k < |integrations| && Usable(integrations[k](s)) && r == integrations[k](s).value
    ensures (!Usable(Lookup(mocks, s)) && !StartsWith(s, ScriptsPrefix)
      && forall k :: 0 <= k < |integrations| ==> !Usable(integrations[k](s))) ==> r == s
  {
    if Usable(Lookup(mocks, s)) then Lookup(mocks, s).value
    else if StartsWith(s, ScriptsPrefix) then ViteIdPrefix + s
    else
      match FirstResolution(integrations, s)
      case Some(c) => c
      case None => s
  }

  /** A mocked specifier resolves to its mock even when it is an Astro script module. */
  lemma MockBeatsScripts(s: string, target: string, integrations: seq<ClientResolver>)
    requires StartsWith(s, ScriptsPrefix) && target != ""
    ensures ResolveSpecifier(s, [Entry(s, target)], integrations) == target
  {
  }

  // ---------------------------------------------------------------------
  // Options of the handler factory
  // ---------------------------------------------------------------------

  /** `options?.mode ?? 'development'`. */
  function HandlerMode(mode: Option<Rules.Mode>): (r: Rules.Mode)
    ensures mode.Some? ==> r == mode.value
    ensures mode.None? ==> r == Rules.Development
  {
    mode.UnwrapOr(Rules.Development)
  }

  // ---------------------------------------------------------------------
  // Image metadata
  // ---------------------------------------------------------------------

  /**
   * `isImageMetadata`: a record with a string `src` and at least one of
   * `width`, `height` or `format`.
   */
  predicate IsImageMetadata(v: Value)
  {
    && v.Obj?
    && HasKey(v.fields, "src") && Get(v.fields, "src").Str?
    && (HasKey(v.fields, "width") || HasKey(v.fields, "height") || HasKey(v.fields, "format"))
  }

  /** `value.src` of an image. */
  function ImageSrc(v: Value): (r: Value)
    requires IsImageMetadata(v)
    ensures r.Str?
  {
    Get(v.fields, "src")
  }

  /** A value under a record key: images become their `src`, arrays are mapped item by item, records are processed. */
  function ProcessedValue(v: Value): Value
    decreases v, 2
  {
    if IsImageMetadata(v) then ImageSrc(v)
    else
      match v
      case Arr(items) => Arr(ProcessedItems(items))
      case Obj(fields) => Obj(ProcessedFields(fields))
      case _ => v
  }

  /**
   * An array item: images become their `src`; records are processed; an
   * array is processed as a record, whose entries are its indices.
   */
  function ProcessedItem(v: Value): Value
    decreases v, 2
  {
    if IsImageMetadata(v) then ImageSrc(v)
    else
      match v
      case Obj(fields) => Obj(ProcessedFields(fields))
      case Arr(items) => Obj(ProcessedIndexed(items, 0))
      case _ => v
  }

  function ProcessedItems(items: seq<Value>): (r: seq<Value>)
    decreases items, 1
    ensures |r| == |items|
  {
    if items == [] then [] else [ProcessedItem(items[0])] + ProcessedItems(items[1..])
  }

  /** `processImageMetadata` of an array: the entries `"start"`, `"start + 1"`, … of the items. */
  function ProcessedIndexed(items: seq<Value>, start: nat): (r: seq<Field>)
    decreases items, 1
    ensures |r| == |items|
  {
    if items == [] then []
    else [Entry(NatToString(start), ProcessedValue(items[0]))] + ProcessedIndexed(items[1..], start + 1)
  }

  /** `processImageMetadata` of a record: each entry's value processed, keys as they were. */
  function ProcessedFields(fields: seq<Field>): (r: seq<Field>)
    decreases fields, 1
    ensures |r| == |fields|
  {
    if fields == [] then [] else [Entry(fields[0].key, ProcessedValue(fields[0].val))] + ProcessedFields(fields[1..])
  }

  /** The processed record has exactly the input's keys, in order, and each value is the processed input value. */
  lemma {:induction false} ProcessedFieldsKeys(fields: seq<Field>)
    ensures Keys(ProcessedFields(fields)) == Keys(fields)
    ensures forall k :: 0 <= k < |fields| ==> ProcessedFields(fields)[k] == Entry(fields[k].key, ProcessedValue(fields[k].val))
  {
    if fields != [] {
      ProcessedFieldsKeys(fields[1..]);
      var r := ProcessedFields(fields);
      assert r == [Entry(fields[0].key, ProcessedValue(fields[0].val))] + ProcessedFields(fields[1..]);
      forall k | 0 < k < |fields| ensures r[k] == Entry(fields[k].key, ProcessedValue(fields[k].val)) {
        assert r[k] == ProcessedFields(fields[1..])[k - 1];
        assert fields[1..][k - 1] == fields[k];
      }
    }
  }

  /** Looking a key up in the processed record gives the processed value of that key. */
  lemma ProcessedLookup(fields: seq<Field>, key: string)
    ensures Lookup(ProcessedFields(fields), key) == match Lookup(fields, key)
      case None => None
      case Some(v) => Some(ProcessedValue(v))
    decreases |fields|
  {
    if fields != [] {
      ProcessedLookup(fields[1..], key);
    }
  }

  /** Arrays keep their length and the position of every item. */
  lemma {:induction false} ProcessedItemsAt(items: seq<Value>, k: nat)
    requires k < |items|
    ensures ProcessedItems(items)[k] == ProcessedItem(items[k])
  {
    if k > 0 {
      ProcessedItemsAt(items[1..], k - 1);
    }
  }

  /** An array directly inside an array comes back as a record keyed by the indices. */
  lemma NestedArrayBecomesRecord(inner: seq<Value>)
    ensures ProcessedValue(Arr([Arr(inner)])) == Arr([Obj(ProcessedIndexed(inner, 0))])
  {
    assert !IsImageMetadata(Arr(inner));
    assert ProcessedItems([Arr(inner)]) == [ProcessedItem(Arr(inner))] + ProcessedItems([]);
  }

  /** An image in the arguments becomes its URL, wherever in a record it sits. */
  lemma ImageBecomesSrc(key: string, src: string, w: int)
    ensures var image := Obj([Entry("src", Str(src)), Entry("width", Num(w))]);
      ProcessedFields([Entry(key, image)]) == [Entry(key, Str(src))]
  {
    var fields := [Entry("src", Str(src)), Entry("width", Num(w))];
    assert Keys(fields) == ["src", "width"];
    assert HasKey(fields, "width");
    assert Get(fields, "src") == Str(src);
  }

  /** Images become their URL; a record that is not an image is processed as a whole; other values stay. */
  method ProcessValue(v: Value) returns (r: Value)
    decreases v, 4
    ensures r == ProcessedValue(v)
  {
    if IsImageMetadata(v) {
      return ImageSrc(v);
    }
    match v {
      case Arr(items) =>
        var out: seq<Value> := [];
        var i := 0;
        while i < |items|
          invariant 0 <= i <= |items|
          invariant out + ProcessedItems(items[i..]) == ProcessedItems(items)
        {
          assert items[i] in items;
          assert items[i..][1..] == items[i + 1..];
          var item := ProcessItem(items[i]);
          out := out + [item];
          i := i + 1;
        }
        r := Arr(out);
      case Obj(fields) =>
        var processed := ProcessImageMetadata(fields);
        r := Obj(processed);
      case _ =>
        r := v;
    }
  }

  /** The callback of `value.map` inside `processImageMetadata`. */
  method ProcessItem(v: Value) returns (r: Value)
    decreases v, 3
    ensures r == ProcessedItem(v)
  {
    if IsImageMetadata(v) {
      r := ImageSrc(v);
    } else if v.Obj? {
      var fields := ProcessImageMetadata(v.fields);
      r := Obj(fields);
    } else if v.Arr? {
      var fields := ProcessIndexed(v.items);
      r := Obj(fields);
    } else {
      r := v;
    }
  }

  /** `processImageMetadata` over a record: a fresh record filled entry by entry. */
  method ProcessImageMetadata(args: seq<Field>) returns (processed: seq<Field>)
    decreases args, 5
    ensures processed == ProcessedFields(args)
  {
    processed := [];
    var i := 0;
    while i < |args|
      invariant 0 <= i <= |args|
      invariant processed + ProcessedFields(args[i..]) == ProcessedFields(args)
    {
      assert args[i] in args;
      assert args[i..][1..] == args[i + 1..];
      var value := ProcessValue(args[i].val);
      processed := processed + [Entry(args[i].key, value)];
      i := i + 1;
    }
  }

  /** `processImageMetadata` over an array item that is itself an array: its entries are its indices. */
  method ProcessIndexed(items: seq<Value>) returns (processed: seq<Field>)
    decreases items, 5
    ensures processed == ProcessedIndexed(items, 0)
  {
    processed := [];
    var i := 0;
    while i < |items|
      invariant 0 <= i <= |items|
      invariant processed + ProcessedIndexed(items[i..], i) == ProcessedIndexed(items, 0)
    {
      assert items[i] in items;
      assert items[i..][1..] == items[i + 1..];
      var value := ProcessValue(items[i]);
      processed := processed + [Entry(NatToString(i), value)];
      i := i + 1;
    }
  }

  // ---------------------------------------------------------------------
  // One render
  // ---------------------------------------------------------------------

  /** `HandlerProps`: the component's module path, its arguments and slots, and the story. */
  datatype HandlerProps = HandlerProps(component: string, args: Option<seq<Field>>, slots: Option<seq<Field>>, story: Value)

  /** What the container is asked to render, and under which module mocks. */
  datatype RenderCall = RenderCall(component: string, props: seq<Field>, slots: seq<Field>, moduleMocks: seq<Entry<string>>)

  /** The externally visible steps of one render, in the order they happen. */
  datatype Step = ApplyMsw(handlers: seq<Rules.Handler>) | Render(call: RenderCall)

  /**
   * What a render is given besides the props: the outcome of
   * `resolveRulesConfigModule` (`Ok(Undefined)` when the option is absent),
   * the rule inputs and the two calls into other code. `renderToString`
   * stands for importing the component and rendering it in the container.
   */
  datatype RenderEnv = RenderEnv(
    configModule: Result<Value>,
    configFilePath: Option<string>,
    mode: Rules.Mode,
    behaviour: Rules.Behaviour,
    paths: Rules.PathOps,
    applyMsw: seq<Rules.Handler> -> Option<Error>,
    renderToString: RenderCall -> Result<string>)

  /** `selectStoryRules` for this story, once the configuration module has been resolved. */
  function SelectionFor(configModule: Value, data: HandlerProps, env: RenderEnv): Result<Rules.Selection>
  {
    Rules.Selected(configModule, env.configFilePath, env.mode, data.story, env.behaviour, env.paths, Rules.WrittenMatcher())
  }

  /**
   * `executeRender`: the rules configuration module is resolved, the
   * story's rules are selected, their MSW handlers applied, then the
   * component is rendered with processed arguments under the selected
   * module mocks. Returns the steps taken and the outcome: the container's
   * html, or the first rejection along the way.
   */
  function ExecuteRender(data: HandlerProps, env: RenderEnv): (r: (seq<Step>, Result<string>))
    ensures r.1.Ok? ==> |r.0| == 2 && r.0[0].ApplyMsw? && r.0[1].Render?
    ensures |r.0| == 2 ==> r.0[1].Render? && r.0[1].call.props == ProcessedFields(data.args.UnwrapOr([]))
    ensures |r.0| <= 2 && (forall k :: 0 <= k < |r.0| ==> (r.0[k].Render? <==> k == 1))
    ensures |r.0| == 2 ==> r.1 == env.renderToString(r.0[1].call)
    ensures |r.0| == 1 ==> r.0[0].ApplyMsw? && env.applyMsw(r.0[0].handlers).Some? && r.1 == Err(env.applyMsw(r.0[0].handlers).value)
    ensures |r.0| >= 1 ==> r.0[0].ApplyMsw? && env.configModule.Ok? && SelectionFor(env.configModule.value, data, env).Ok?
    ensures env.configModule.Err? ==> r == ([], Err(env.configModule.error))
  {
    match env.configModule
    case Err(e) => ([], Err(e))
    case Ok(configModule) =>
      match SelectionFor(configModule, data, env)
      case Err(e) => ([], Err(e))
      case Ok(sel) =>
        var applied := env.applyMsw(sel.mswHandlers);
        if applied.Some? then ([ApplyMsw(sel.mswHandlers)], Err(applied.value))
        else
          var call := RenderCall(data.component, ProcessedFields(data.args.UnwrapOr([])), data.slots.UnwrapOr([]), sel.moduleMocks);
          ([ApplyMsw(sel.mswHandlers), Render(call)], env.renderToString(call))
  }

  /** The handlers applied and the mocks in scope are exactly the ones the rules selected. */
  lemma RenderUsesSelection(data: HandlerProps, env: RenderEnv)
    requires env.configModule.Ok? && SelectionFor(env.configModule.value, data, env).Ok?
    ensures var sel := SelectionFor(env.configModule.value, data, env).value;
      var steps := ExecuteRender(data, env).0;
      && steps[0] == ApplyMsw(sel.mswHandlers)
      && (|steps| == 2 ==> steps[1].call.moduleMocks == sel.moduleMocks && steps[1].call.slots == data.slots.UnwrapOr([]))
  {
  }

  /** A failing rule selection stops the render before anything else happens. */
  lemma SelectionFailureStopsRender(data: HandlerProps, env: RenderEnv)
    requires env.configModule.Ok? && SelectionFor(env.configModule.value, data, env).Err?
    ensures ExecuteRender(data, env).0 == []
    ensures ExecuteRender(data, env).1 == Err(SelectionFor(env.configModule.value, data, env).error)
  {
  }

  /**
   * A successful render's outcome is exactly what the container produced
   * for the selected mocks and processed arguments, and a rejected MSW
   * application is the render's error with nothing rendered.
   */
  lemma RenderOutcome(data: HandlerProps, env: RenderEnv)
    requires env.configModule.Ok? && SelectionFor(env.configModule.value, data, env).Ok?
    ensures var sel := SelectionFor(env.configModule.value, data, env).value;
      var call := RenderCall(data.component, ProcessedFields(data.args.UnwrapOr([])), data.slots.UnwrapOr([]), sel.moduleMocks);
      && (env.applyMsw(sel.mswHandlers).None? ==> ExecuteRender(data, env).1 == env.renderToString(call))
      && (env.applyMsw(sel.mswHandlers).Some? ==> ExecuteRender(data, env) == ([ApplyMsw(sel.mswHandlers)], Err(env.applyMsw(sel.mswHandlers).value)))
  {
  }

  // ---------------------------------------------------------------------
  // The render queue
  // ---------------------------------------------------------------------

  /** The outcome a caller of the handler receives. */
  datatype Settlement = Settlement(ticket: nat, outcome: Result<string>)

  /**
   * The `renderQueue` chain: every handler call is appended, and each
   * render starts once the previous one has settled, fulfilled or rejected.
   * `calls` holds the tickets in call order, `settled` the renders finished
   * so far.
   */
  class RenderQueue {
    var calls: seq<nat>
    var settled: seq<Settlement>

    /** Renders settle in call order, one after another. */
    ghost predicate Valid()
      reads this
    {
      && |settled| <= |calls|
      && (forall k :: 0 <= k < |calls| ==> calls[k] == k)
      && (forall k :: 0 <= k < |settled| ==> settled[k].ticket == calls[k])
    }

    /** `Promise.resolve()`: nothing queued. */
    constructor ()
      ensures Valid() && calls == [] && settled == []
    {
      calls := [];
      settled := [];
    }

    /** A handler call: its render is chained behind every earlier one. */
    method Handle() returns (ticket: nat)
      requires Valid()
      modifies this
      ensures Valid()
      ensures ticket == |old(calls)| && calls == old(calls) + [ticket] && settled == old(settled)
    {
      ticket := |calls|;
      calls := calls + [ticket];
    }

    /** The render at the head of the queue, the only one running. */
    function Running(): (r: Option<nat>)
      requires Valid()
      reads this
      ensures r.Some? <==> |settled| < |calls|
      ensures r.Some? ==> r.value == |settled| && forall k :: 0 <= k < |settled| ==> settled[k].ticket < r.value
    {
      if |settled| < |calls| then Some(calls[|settled|]) else None
    }

    /**
     * The running render settles with `outcome`; the queue's own tail
     * ignores the outcome, so the next render starts either way.
     */
    method Settle(outcome: Result<string>)
      requires Valid() && Running().Some?
      modifies this
      ensures Valid()
      ensures calls == old(calls)
      ensures settled == old(settled) + [Settlement(old(Running()).value, outcome)]
      ensures |settled| < |calls| ==> Running() == Some(old(Running()).value + 1)
    {
      settled := settled + [Settlement(calls[|settled|], outcome)];
    }

    /** What the caller holding `ticket` receives: its own render's outcome, a rejection included. */
    function Received(ticket: nat): (r: Option<Result<string>>)
      requires Valid()
      reads this
      ensures r.Some? <==> ticket < |settled|
      ensures r.Some? ==> settled[ticket] == Settlement(ticket, r.value)
    {
      if ticket < |settled| then Some(settled[ticket].outcome) else None
    }
  }

  /** A rejected render does not block the next: two calls, the first failing, both settle in order. */
  method FailureDoesNotBlock(e: Error, html: string) returns (q: RenderQueue)
    ensures q.Valid() && q.Received(0) == Some(Err(e)) && q.Received(1) == Some(Ok(html))
  {
    q := new RenderQueue();
    var first := q.Handle();
    var second := q.Handle();
    q.Settle(Err(e));
    q.Settle(Ok(html));
  }
}
