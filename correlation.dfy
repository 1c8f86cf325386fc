/**
 * Correlation of render requests and responses over the Vite hot channel,
 * as the development renderers of `@astrostory/core`, `@storybook/astro`
 * and `@storybook/astro-renderer` do it: each request gets a fresh id and
 * a pending entry, a response settles the entry with that id, and a timer
 * rejects it otherwise. Also the style-refresh trigger and the rewrite
 * that makes Vite's style modules safe to re-run, and the uncorrelated
 * listener of the oldest renderer.
 */
module Correlation {
  import opened Wrappers
  import opened Text
  import opened Records
  import opened Values

  // ---------------------------------------------------------------------
  // Timeout errors
  // ---------------------------------------------------------------------

  /** The three renderers that keep a table of pending renders. */
  datatype Source =
    | Core         // @astrostory/core, renderer/renderer-dev.ts
    | StorybookDev // @storybook/astro, renderer/renderer-dev.ts
    | CanvasDev    // @storybook/astro-renderer, src/render.tsx

  const DefaultTimeoutMs: nat := 5000
  const UnavailableErrorName := "AstroRenderServerUnavailableError"

  /** `timeoutMs = 5000`. */
  function TimeoutMs(given: Option<nat>): (r: nat)
    ensures given.None? ==> r == DefaultTimeoutMs
    ensures given.Some? ==> r == given.value
  {
    given.UnwrapOr(DefaultTimeoutMs)
  }

  /** The rejection of a render whose response did not arrive in time. */
  function TimeoutError(source: Source, id: string, timeoutMs: nat): (r: Error)
    ensures source == Core <==> r.name == UnavailableErrorName
  {
    var ms := NatToString(timeoutMs) + "ms";
    match source
    case Core => Error(UnavailableErrorName, "Unable to reach Astro rendering server. No render response was received within " + ms + ".")
    case StorybookDev => Error("Error", "Request " + id + " timed out after " + ms)
    case CanvasDev => Error("Error", "Astro component render request " + id + " timed out after " + ms)
  }

  /** The timeout message names the time limit, and, outside the core renderer, the request id. */
  lemma TimeoutErrorMentions(source: Source, id: string, timeoutMs: nat)
    ensures Contains(TimeoutError(source, id, timeoutMs).message, NatToString(timeoutMs) + "ms")
    ensures source != Core ==> Contains(TimeoutError(source, id, timeoutMs).message, id)
  {
    var ms := NatToString(timeoutMs) + "ms";
    var m := TimeoutError(source, id, timeoutMs).message;
    match source
    case Core =>
      ContainsInfix("Unable to reach Astro rendering server. No render response was received within ", ms, ".");
    case StorybookDev =>
      var head := "Request ";
      var middle := " timed out after ";
      assert m == head + id + (middle + ms);
      ContainsInfix(head, id, middle + ms);
      assert m == (head + id + middle) + ms + "";
      ContainsInfix(head + id + middle, ms, "");
    case CanvasDev =>
      var head := "Astro component render request ";
      var middle := " timed out after ";
      assert m == head + id + (middle + ms);
      ContainsInfix(head, id, middle + ms);
      assert m == (head + id + middle) + ms + "";
      ContainsInfix(head + id + middle, ms, "");
  }

  // ---------------------------------------------------------------------
  // The table of pending renders
  // ---------------------------------------------------------------------

  /** How a render's promise settled. */
  datatype Outcome = Resolved(response: Value) | Rejected(error: Error)

  /** A settled render. */
  datatype Settled = Settled(id: string, outcome: Outcome)

  /**
   * The module-level `messages` map of one renderer: pending ids with their
   * timer. `sent` holds the request messages sent on the hot channel and
   * `settled` the renders settled so far, both in order; `cleared` the
   * timers cleared.
   */
  class PendingRenders {
    const source: Source
    var messages: map<string, nat>
    var sent: seq<seq<Field>>
    var settled: seq<Settled>
    var cleared: seq<nat>
    ghost var issued: seq<string>

    /**
     * Every id was issued once; an id is pending or settled, never both;
     * and no id settles twice.
     */
    ghost predicate Valid()
      reads this
    {
      && (forall i, j :: 0 <= i < j < |issued| ==> issued[i] != issued[j])
      && (forall id :: id in messages ==> id in issued)
      && (forall k :: 0 <= k < |settled| ==> settled[k].id in issued && settled[k].id !in messages)
      && (forall i, j :: 0 <= i < j < |settled| ==> settled[i].id != settled[j].id)
      && |sent| == |issued|
    }

    constructor (source: Source)
      ensures Valid() && this.source == source
      ensures messages == map[] && sent == [] && settled == [] && cleared == [] && issued == []
    {
      this.source := source;
      messages := map[];
      sent := [];
      settled := [];
      cleared := [];
      issued := [];
    }

    /**
     * `render`: register the fresh id (from `crypto.randomUUID`) with its
     * timer, then send the request with the id added to the data.
     */
    method Render(data: seq<Field>, id: string, timer: nat)
      requires Valid() && id !in issued
      modifies this
      ensures Valid()
      ensures messages == old(messages)[id := timer]
      ensures sent == old(sent) + [Spread(data, [Entry("id", Str(id))])]
      ensures issued == old(issued) + [id]
      ensures settled == old(settled) && cleared == old(cleared)
    {
      issued := issued + [id];
      messages := messages[id := timer];
      sent := sent + [Spread(data, [Entry("id", Str(id))])];
    }

    /**
     * The `astro:render:response` listener: a response naming a pending id
     * clears its timer, removes it and resolves it; any other response
     * changes nothing.
     */
    method Respond(response: Value)
      requires Valid()
      modifies this
      ensures Valid()
      ensures sent == old(sent) && issued == old(issued)
      ensures match ResponseId(response)
        case Some(id) =>
          if id in old(messages) then
            && messages == old(messages) - {id}
            && settled == old(settled) + [Settled(id, Resolved(response))]
            && cleared == old(cleared) + [old(messages)[id]]
          else messages == old(messages) && settled == old(settled) && cleared == old(cleared)
        case None => messages == old(messages) && settled == old(settled) && cleared == old(cleared)
    {
      var rid := ResponseId(response);
      if rid.Some? && rid.value in messages {
        var id := rid.value;
        cleared := cleared + [messages[id]];
        messages := messages - {id};
        settled := settled + [Settled(id, Resolved(response))];
        forall i, j | 0 <= i < j < |settled| ensures settled[i].id != settled[j].id {
          if j == |settled| - 1 {
            assert settled[i] == old(settled)[i];
          }
        }
      }
    }

    /**
     * The timer of a pending id fires (it cannot once cleared): the entry
     * is removed and the render rejected with the source's timeout error.
     */
    method Timeout(id: string, timeoutMs: nat)
      requires Valid() && id in messages
      modifies this
      ensures Valid()
      ensures messages == old(messages) - {id}
      ensures settled == old(settled) + [Settled(id, Rejected(TimeoutError(source, id, timeoutMs)))]
      ensures sent == old(sent) && cleared == old(cleared) && issued == old(issued)
    {
      var e := TimeoutError(source, id, timeoutMs);
      messages := messages - {id};
      settled := settled + [Settled(id, Rejected(e))];
      forall i, j | 0 <= i < j < |settled| ensures settled[i].id != settled[j].id {
        if j == |settled| - 1 {
          assert settled[i] == old(settled)[i];
        }
      }
    }

    /** A settled id is no longer pending, so neither a late response nor its timer can settle it again. */
    lemma SettledOnce(k: nat)
      requires Valid() && k < |settled|
      ensures settled[k].id !in messages
      ensures forall j :: 0 <= j < |settled| && j != k ==> settled[j].id != settled[k].id
    {
    }
  }

  /** The id a response names: `data.id` when it is a non-empty string (`data.id && …`). */
  function ResponseId(response: Value): (r: Option<string>)
    ensures r.Some? <==> Prop(response, "id").Str? && Prop(response, "id").s != ""
    ensures r.Some? ==> r.value == Prop(response, "id").s
  {
    var v := Prop(response, "id");
    if v.Str? && v.s != "" then Some(v.s) else None
  }

  /** The request carries the render data with the id added (or overriding a data `id`). */
  lemma RequestCarriesId(data: seq<Field>, id: string)
    ensures Lookup(Spread(data, [Entry("id", Str(id))]), "id") == Some(Str(id))
    ensures forall k :: k != "id" ==> Lookup(Spread(data, [Entry("id", Str(id))]), k) == Lookup(data, k)
  {
    assert HasKey([Entry("id", Str(id))], "id");
    forall k | k != "id" ensures !HasKey([Entry("id", Str(id))], k) {
      assert Keys([Entry("id", Str(id))]) == ["id"];
    }
  }

  /** One render answered in time: the response resolves it, the timer is cleared, nothing stays pending. */
  method RenderAnswered(data: seq<Field>, id: string, html: string) returns (table: PendingRenders)
    requires id != ""
    ensures table.Valid() && table.messages == map[] && table.cleared == [7]
    ensures table.settled == [Settled(id, Resolved(Obj([Entry("id", Str(id)), Entry("html", Str(html))])))]
  {
    table := new PendingRenders(Core);
    table.Render(data, id, 7);
    var response := Obj([Entry("id", Str(id)), Entry("html", Str(html))]);
    assert Prop(response, "id") == Str(id);
    table.Respond(response);
  }

  /** A render timed out: a late response for it changes nothing. */
  method LateResponseIgnored(data: seq<Field>, id: string, html: string) returns (table: PendingRenders)
    requires id != ""
    ensures table.Valid() && table.messages == map[] && table.cleared == []
    ensures table.settled == [Settled(id, Rejected(TimeoutError(Core, id, DefaultTimeoutMs)))]
  {
    table := new PendingRenders(Core);
    table.Render(data, id, 7);
    table.Timeout(id, DefaultTimeoutMs);
    var response := Obj([Entry("id", Str(id)), Entry("html", Str(html))]);
    assert Prop(response, "id") == Str(id);
    table.Respond(response);
  }

  // ---------------------------------------------------------------------
  // Style refresh
  // ---------------------------------------------------------------------

  /** `.astro?astro&type=style&index=0&lang.css` */
  const StyleSuffix := (StyleIndexPrefix + "0") + (LangPrefix + "css")

  /** The check of the two `renderer-dev.ts` files: the fixed suffix of the first style block's CSS. */
  predicate IsStyleUpdatePath(path: string)
  {
    EndsWith(path, StyleSuffix)
  }

  /** `payload.updates.some(...)`: whether a Vite update triggers a style refresh. */
  predicate NeedsStyleRefresh(paths: seq<string>)
  {
    exists k :: 0 <= k < |paths| && IsStyleUpdatePath(paths[k])
  }

  /** The number of decimal digits at the end of `s`. */
  function TrailingDigits(s: string): (r: nat)
    ensures r <= |s|
    ensures forall k :: |s| - r <= k < |s| ==> '0' <= s[k] <= '9'
    ensures r < |s| ==> !('0' <= s[|s| - r - 1] <= '9')
  {
    if s == [] || !('0' <= s[|s| - 1] <= '9') then 0
    else
      var r := TrailingDigits(s[..|s| - 1]);
      assert forall k :: 0 <= k < |s| - 1 ==> s[..|s| - 1][k] == s[k];
      r + 1
  }

  const StyleLangs: seq<string> := ["css", "scss", "sass", "less", "stylus"]
  const StyleIndexPrefix := ".astro?astro&type=style&index="
  const LangPrefix := "&lang."

  /** `before` ends with `.astro?astro&type=style&index=` and one or more digits. */
  predicate EndsWithStyleIndex(before: string)
  {
    var d := TrailingDigits(before);
    d > 0 && EndsWith(before[..|before| - d], StyleIndexPrefix)
  }

  /**
   * `isAstroStyleUpdate` of `@storybook/astro-renderer`: the regular
   * expression `\.astro\?astro&type=style&index=\d+&lang\.(css|scss|sass|less|stylus)$`,
   * unanchored at the start.
   */
  predicate IsAstroStyleUpdate(path: string)
  {
    exists k :: 0 <= k < |StyleLangs| && EndsWith(path, LangPrefix + StyleLangs[k])
      && EndsWithStyleIndex(path[..|path| - |LangPrefix + StyleLangs[k]|])
  }

  /** A string ending with the style-index prefix and `0` ends with a style index. */
  lemma ZeroIndexIsStyleIndex(before: string)
    requires EndsWith(before, StyleIndexPrefix + "0")
    ensures EndsWithStyleIndex(before)
  {
    assert StyleIndexPrefix[|StyleIndexPrefix| - 1] == '=';
    OneDigitAfter(before, StyleIndexPrefix, "0");
  }

  /** One digit after a prefix that ends with a non-digit is exactly one trailing digit, preceded by the prefix. */
  lemma OneDigitAfter(before: string, prefix: string, digit: string)
    requires |digit| == 1 && '0' <= digit[0] <= '9'
    requires prefix != [] && !('0' <= prefix[|prefix| - 1] <= '9')
    requires EndsWith(before, prefix + digit)
    ensures TrailingDigits(before) == 1 && EndsWith(before[..|before| - 1], prefix)
  {
    EndsWithSplit(before, prefix, digit);
    var rest := before[..|before| - 1];
    assert rest[|rest| - 1] == prefix[|prefix| - 1];
    assert TrailingDigits(rest) == 0;
  }

  /** Every path the fixed-suffix check accepts, the regular expression accepts too. */
  lemma FixedSuffixIsStyleUpdate(path: string)
    requires IsStyleUpdatePath(path)
    ensures IsAstroStyleUpdate(path)
  {
    var tail := LangPrefix + "css";
    EndsWithSplit(path, StyleIndexPrefix + "0", tail);
    ZeroIndexIsStyleIndex(path[..|path| - |tail|]);
    assert StyleLangs[0] == "css";
    StyleUpdateWith(path, 0, tail);
  }

  /** A path ending with the preprocessor at `k`, with a style index before it, is a style update. */
  lemma StyleUpdateWith(path: string, k: nat, tail: string)
    requires k < |StyleLangs| && tail == LangPrefix + StyleLangs[k]
    requires EndsWith(path, tail) && EndsWithStyleIndex(path[..|path| - |tail|])
    ensures IsAstroStyleUpdate(path)
  {
  }

  /** The newer check also accepts other block indices and preprocessors, which the fixed suffix misses. */
  lemma StyleUpdateWider(name: string)
    ensures var p := name + StyleIndexPrefix + "12&lang.scss";
      IsAstroStyleUpdate(p) && !IsStyleUpdatePath(p)
  {
    var p := name + StyleIndexPrefix + "12&lang.scss";
    var tail := LangPrefix + StyleLangs[1];
    assert p == (name + StyleIndexPrefix + "12") + tail;
    var before := name + StyleIndexPrefix + "12";
    assert p[..|p| - |tail|] == before;
    assert p[|p| - |tail|..] == tail;
    var one := name + StyleIndexPrefix + "1";
    var zero := name + StyleIndexPrefix;
    assert before[..|before| - 1] == one;
    assert one[..|one| - 1] == zero;
    assert zero[|zero| - 1] == '=';
    assert TrailingDigits(zero) == 0;
    assert TrailingDigits(one) == 1;
    assert TrailingDigits(before) == 2;
    assert before[..|before| - 2] == zero;
    assert zero[|zero| - |StyleIndexPrefix|..] == StyleIndexPrefix;
    assert p[|p| - 1] == 's';
  }

  const AcceptCall := "import.meta.hot.accept("
  const PruneCall := "import.meta.hot.prune("

  /**
   * `applyStyles`/`applyAstroStyles`: the text of a Vite style module with
   * its hot-module calls made optional, so it runs outside Vite's client.
   */
  function GuardHotCalls(text: string): string
  {
    ReplaceAll(ReplaceAll(text, AcceptCall, "import.meta.hot?.accept("), PruneCall, "import.meta.hot?.prune(")
  }

  /** Text without either hot call is left as it is. */
  lemma GuardHotCallsKeepsOtherText(text: string)
    requires forall j :: 0 <= j ==> !OccursAt(text, AcceptCall, j) && !OccursAt(text, PruneCall, j)
    ensures GuardHotCalls(text) == text
  {
    ReplaceAllAbsent(text, AcceptCall, "import.meta.hot?.accept(");
    ReplaceAllAbsent(text, PruneCall, "import.meta.hot?.prune(");
  }

  // ---------------------------------------------------------------------
  // The uncorrelated listener of @storybook/astro-renderer/render.tsx
  // ---------------------------------------------------------------------

  /**
   * `renderToCanvas` of the oldest renderer: it subscribes a listener, sends
   * a request without an id, and the first response of any render fills the
   * canvas and unsubscribes the listener.
   */
  class LegacyCanvas {
    var listeners: nat
    var html: string
    var sent: seq<seq<Field>>

    constructor ()
      ensures listeners == 0 && html == "" && sent == []
    {
      listeners := 0;
      html := "";
      sent := [];
    }

    /** Subscribe, then send `{component, args, slots}`. */
    method RenderAstro(component: Value, args: seq<Field>, slots: Value)
      modifies this
      ensures listeners == old(listeners) + 1 && html == old(html)
      ensures sent == old(sent) + [[Entry("component", component), Entry("args", Obj(args)), Entry("slots", slots)]]
    {
      listeners := listeners + 1;
      sent := sent + [[Entry("component", component), Entry("args", Obj(args)), Entry("slots", slots)]];
    }

    /**
     * A response arrives: every subscribed listener writes this response's
     * html to the canvas and unsubscribes itself, whichever request the
     * response answers.
     */
    method Respond(responseHtml: string)
      modifies this
      ensures old(listeners) > 0 ==> html == responseHtml
      ensures old(listeners) == 0 ==> html == old(html)
      ensures listeners == 0 && sent == old(sent)
    {
      if listeners > 0 {
        html := responseHtml;
        listeners := 0;
      }
    }
  }

  /**
   * Two overlapping renders: the first response to arrive, for whichever
   * request, is shown, and the other response is dropped.
   */
  method OverlappingRenders(first: Value, second: Value, args: seq<Field>, earlier: string, later: string)
    returns (canvas: LegacyCanvas)
    ensures canvas.html == earlier && canvas.listeners == 0 && |canvas.sent| == 2
  {
    canvas := new LegacyCanvas();
    canvas.RenderAstro(first, args, Obj([]));
    canvas.RenderAstro(second, args, Obj([]));
    canvas.Respond(earlier);
    canvas.Respond(later);
  }
}
