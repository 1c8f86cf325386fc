/**
 * Story rendering in the preview, as the three `render.tsx` files do it:
 * `render` turns a story's component annotation and args into what the
 * canvas shows (a delegated framework render, html from a string template,
 * a cloned element with the args as attributes, an Astro component factory
 * or a JSX element), and `renderToCanvas` decides what happens to the
 * canvas for what the story function returned.
 *
 * DOM writes, script re-activation, `simulatePageLoad` and the framework
 * renderers themselves are outside the model: the canvas outcome names
 * what is written or who is delegated to.
 */
module RenderDispatch {
  import opened Wrappers
  import opened Text
  import opened Records
  import opened Values
  import Correlation
  import HttpRenderer
  import StaticPrerender

  /** The three packages with a `render.tsx`. */
  datatype Package =
    | AstrostoryRenderer   // @astrostory/renderer, src/render.tsx
    | AstroRenderer        // @storybook/astro-renderer, src/render.tsx
    | LegacyAstroRenderer  // @storybook/astro-renderer, render.tsx

  /** What a story's `component` annotation can be. */
  datatype Component =
    | NoComponent                                           // undefined or null
    | Template(template: string)                            // a string
    | Element(tag: string, attributes: seq<Entry<string>>)  // an HTMLElement
    | Function(id: nat, factoryFlag: Value)                 // a function and its `isAstroComponentFactory`
    | OtherComponent(value: Value)                          // any other value

  /** `!Component`. */
  predicate Missing(component: Component)
  {
    component.NoComponent? || component == Template("")
    || (component.OtherComponent? && !Truthy(component.value))
  }

  /** What `render` returns. */
  datatype Rendered =
    | Delegated(renderer: string)                           // the registry renderer's own `render`
    | Markup(html: string)
    | Clone(tag: string, attributes: seq<Entry<string>>)
    | Factory(id: nat)                                      // the Astro component, unchanged
    | Jsx(id: nat, props: seq<Field>)                       // `<Component {...args} />`

  /** `renderer && Object.hasOwn(renderers, renderer)`. */
  predicate RegistryHit(renderer: Option<string>, registry: set<string>)
  {
    renderer.Some? && renderer.value != "" && renderer.value in registry
  }

  function MissingComponentError(storyId: string): (e: Error)
    ensures Contains(e.message, "Unable to render story " + storyId)
  {
    var head := "Unable to render story " + storyId;
    ContainsEnds(head, " as the component annotation is missing from the default export");
    Fail(head + " as the component annotation is missing from the default export")
  }

  function UnsupportedComponentError(package: Package, storyId: string): (e: Error)
    ensures Contains(e.message, "Unable to render story " + storyId)
  {
    var head := "Unable to render story " + storyId;
    ContainsEnds(head, " - unsupported component type");
    ContainsEnds(head, "");
    assert head + "" == head;
    if package == AstroRenderer then Fail(head + " - unsupported component type")
    else Fail(head)
  }

  // String templates

  /** `{{key}}`. */
  function Placeholder(key: string): string
  {
    "{{" + key + "}}"
  }

  /**
   * `output.replace('{{key}}', value)`: the first occurrence only. A string
   * replacement is expanded by the replacement patterns (`$&` and the
   * like); a function is called as the replacer, and its text (`call`)
   * goes in literally.
   */
  function ReplaceFirstPlaceholder(output: string, key: string, value: Value, fnText: FunctionText, call: nat -> string): string
  {
    var pat := Placeholder(key);
    if value.Func? then
      match IndexOf(output, pat)
      case None => output
      case Some(i) => output[..i] + call(value.id) + output[i + |pat|..]
    else ReplaceFirst(output, pat, ToJsString(value, fnText))
  }

  /** The `forEach` over the args of the first-occurrence renderers, key by key in order. */
  function FirstPlaceholders(template: string, args: seq<Field>, fnText: FunctionText, call: nat -> string): string
  {
    if args == [] then template
    else
      var last := args[|args| - 1];
      ReplaceFirstPlaceholder(FirstPlaceholders(template, args[..|args| - 1], fnText, call), last.key, last.val, fnText, call)
  }

  /** The string branch of `render` in the first-occurrence renderers, reassigning `output` key by key. */
  method ReplaceFirstPlaceholders(template: string, args: seq<Field>, fnText: FunctionText, call: nat -> string) returns (output: string)
    ensures output == FirstPlaceholders(template, args, fnText, call)
  {
    output := template;
    var i := 0;
    while i < |args|
      invariant 0 <= i <= |args|
      invariant output == FirstPlaceholders(template, args[..i], fnText, call)
    {
      assert args[..i + 1][..i] == args[..i];
      output := ReplaceFirstPlaceholder(output, args[i].key, args[i].val, fnText, call);
      i := i + 1;
    }
    assert args[..i] == args;
  }

  predicate IsDigit(c: char)
  {
    '0' <= c <= '9'
  }

  /** The characters with a meaning of their own in a regular expression. */
  predicate IsRegExpSyntax(c: char)
  {
    c == '\\' || c == '^' || c == '$' || c == '.' || c == '|' || c == '?' || c == '*' || c == '+'
    || c == '(' || c == ')' || c == '[' || c == ']' || c == '{' || c == '}'
  }

  /**
   * A key whose placeholder, compiled by `new RegExp`, matches itself
   * literally: no regular-expression syntax, and not a leading digit that
   * would turn `{{1}}` into a quantifier.
   */
  predicate PlainKey(key: string)
  {
    (forall k :: 0 <= k < |key| ==> !IsRegExpSyntax(key[k])) && (key == "" || !IsDigit(key[0]))
  }

  predicate PlainKeys(args: seq<Field>)
  {
    forall k :: 0 <= k < |args| ==> PlainKey(args[k].key)
  }

  /** `replaceTemplatePlaceholders`: every occurrence of each key's placeholder, key by key. */
  function AllPlaceholders(template: string, args: seq<Field>, fnText: FunctionText): string
  {
    if args == [] then template
    else
      var last := args[|args| - 1];
      var output := AllPlaceholders(template, args[..|args| - 1], fnText);
      ReplaceEvery(output, 0, Placeholder(last.key), ToJsString(last.val, fnText))
  }

  /** `replaceTemplatePlaceholders`, reassigning `output` in its `forEach`. */
  method ReplaceTemplatePlaceholders(template: string, args: seq<Field>, fnText: FunctionText) returns (output: string)
    requires PlainKeys(args)
    ensures output == AllPlaceholders(template, args, fnText)
  {
    output := template;
    var i := 0;
    while i < |args|
      invariant 0 <= i <= |args|
      invariant output == AllPlaceholders(template, args[..i], fnText)
    {
      assert args[..i + 1][..i] == args[..i];
      var placeholder := Placeholder(args[i].key);
      var replacement := ToJsString(args[i].val, fnText);
      output := ReplaceEvery(output, 0, placeholder, replacement);
      i := i + 1;
    }
    assert args[..i] == args;
  }

  /** A doubled placeholder: the first-occurrence renderers fill the first copy only, the other fills both. */
  lemma PlaceholderTwice(key: string, s: string, fnText: FunctionText, call: nat -> string)
    requires '$' !in s
    ensures FirstPlaceholders(Placeholder(key) + Placeholder(key), [Entry(key, Str(s))], fnText, call) == s + Placeholder(key)
    ensures AllPlaceholders(Placeholder(key) + Placeholder(key), [Entry(key, Str(s))], fnText) == s + s
  {
    FirstOfDoubled(key, s, fnText, call);
    AllOfDoubled(key, s, fnText);
  }

  /** The first-occurrence half of `PlaceholderTwice`. */
  lemma FirstOfDoubled(key: string, s: string, fnText: FunctionText, call: nat -> string)
    requires '$' !in s
    ensures FirstPlaceholders(Placeholder(key) + Placeholder(key), [Entry(key, Str(s))], fnText, call) == s + Placeholder(key)
  {
    var p := Placeholder(key);
    var args := [Entry(key, Str(s))];
    assert args[..0] == [];
    assert OccursAt(p + p, p, 0);
    assert IndexOf(p + p, p) == Some(0);
    SubstituteNoDollar(s, p, (p + p)[..0], (p + p)[|p|..]);
  }

  /** The every-occurrence half of `PlaceholderTwice`. */
  lemma AllOfDoubled(key: string, s: string, fnText: FunctionText)
    requires '$' !in s
    ensures AllPlaceholders(Placeholder(key) + Placeholder(key), [Entry(key, Str(s))], fnText) == s + s
  {
    var p := Placeholder(key);
    var args := [Entry(key, Str(s))];
    assert args[..0] == [];
    SubstituteNoDollar(s, p, (p + p)[..0], (p + p)[|p|..]);
    SubstituteNoDollar(s, p, (p + p)[..|p|], (p + p)[2 * |p|..]);
    assert (p + p)[0..][..|p|] == p;
    assert (p + p)[|p|..][..|p|] == p;
    assert ReplaceEvery(p + p, 2 * |p|, p, s) == [];
    assert ReplaceEvery(p + p, |p|, p, s) == s + [];
    assert ReplaceEvery(p + p, 0, p, s) == s + (s + []);
  }

  /** No occurrence at or after `offset` leaves the rest as it is. */
  lemma {:induction false} ReplaceEveryNone(whole: string, offset: nat, pat: string, rep: string)
    requires |pat| > 0 && offset <= |whole|
    requires forall j :: offset <= j ==> !OccursAt(whole, pat, j)
    ensures ReplaceEvery(whole, offset, pat, rep) == whole[offset..]
    decreases |whole| - offset
  {
    var s := whole[offset..];
    if |s| >= |pat| {
      assert !OccursAt(whole, pat, offset);
      assert s[..|pat|] == whole[offset..offset + |pat|];
      ReplaceEveryNone(whole, offset + 1, pat, rep);
      assert s == [s[0]] + whole[offset + 1..];
    }
  }

  /** A placeholder starts with `{{`, so a text without `{{` holds none. */
  lemma NoPlaceholderIn(s: string, key: string)
    requires !Contains(s, "{{")
    ensures forall j :: !OccursAt(s, Placeholder(key), j)
    ensures IndexOf(s, Placeholder(key)).None?
  {
    var p := Placeholder(key);
    forall j: nat | OccursAt(s, p, j) ensures false {
      assert s[j..j + 2] == p[..2] == "{{";
      ContainsAt(s, "{{", j);
    }
  }

  /** A template without `{{` is rendered unchanged by every renderer. */
  lemma {:induction false} TemplateWithoutPlaceholders(template: string, args: seq<Field>, fnText: FunctionText, call: nat -> string)
    requires !Contains(template, "{{")
    ensures FirstPlaceholders(template, args, fnText, call) == template
    ensures AllPlaceholders(template, args, fnText) == template
  {
    if args != [] {
      var init := args[..|args| - 1];
      var last := args[|args| - 1];
      TemplateWithoutPlaceholders(template, init, fnText, call);
      NoPlaceholderIn(template, last.key);
      ReplaceEveryNone(template, 0, Placeholder(last.key), ToJsString(last.val, fnText));
    }
  }

  // Elements

  /** The attribute text for an arg: a string as it is, else its JSON text, where no JSON text reads `undefined`. */
  function AttributeValue(value: Value): (r: string)
    ensures value.Str? ==> r == value.s
    ensures !value.Str? && JsonStringify(value).Some? ==> r == JsonStringify(value).value
    ensures value.Undefined? || value.Func? ==> r == "undefined"
  {
    if value.Str? then value.s
    else match JsonStringify(value)
      case Some(text) => text
      case None => "undefined"
  }

  /** `setAttribute` for each arg in order on the clone; HTML attribute names are lower-cased. */
  function SetAttributes(attributes: seq<Entry<string>>, args: seq<Field>): seq<Entry<string>>
  {
    if args == [] then attributes
    else
      var last := args[|args| - 1];
      Assign(SetAttributes(attributes, args[..|args| - 1]), ToLower(last.key), AttributeValue(last.val))
  }

  /** The clone's attributes, set arg by arg in the `forEach`. */
  method CloneElementWithArgs(attributes: seq<Entry<string>>, args: seq<Field>) returns (output: seq<Entry<string>>)
    ensures output == SetAttributes(attributes, args)
  {
    output := attributes;
    var i := 0;
    while i < |args|
      invariant 0 <= i <= |args|
      invariant output == SetAttributes(attributes, args[..i])
    {
      assert args[..i + 1][..i] == args[..i];
      output := Assign(output, ToLower(args[i].key), AttributeValue(args[i].val));
      i := i + 1;
    }
    assert args[..i] == args;
  }

  /** An arg's attribute holds its text unless a later arg writes the same attribute; attributes no arg names are kept. */
  lemma {:induction false} AttributeOfArg(attributes: seq<Entry<string>>, args: seq<Field>, j: nat)
    requires j < |args|
    requires forall i :: j < i < |args| ==> ToLower(args[i].key) != ToLower(args[j].key)
    ensures Lookup(SetAttributes(attributes, args), ToLower(args[j].key)) == Some(AttributeValue(args[j].val))
  {
    if j < |args| - 1 {
      var init := args[..|args| - 1];
      AttributeOfArg(attributes, init, j);
    }
  }

  /** Attributes no arg names are kept. */
  lemma {:induction false} OtherAttributesKept(attributes: seq<Entry<string>>, args: seq<Field>, name: string)
    requires forall i :: 0 <= i < |args| ==> ToLower(args[i].key) != name
    ensures Lookup(SetAttributes(attributes, args), name) == Lookup(attributes, name)
  {
    if args != [] {
      OtherAttributesKept(attributes, args[..|args| - 1], name);
    }
  }

  // Dispatch

  /**
   * `render`. The registry of framework renderers comes first (the oldest
   * renderer has none), then the missing-component error, then strings,
   * elements and functions; anything else is unsupported. The renderer of
   * `@storybook/astro-renderer/src` fills every occurrence of a
   * placeholder, the two others only the first.
   */
  function Render(package: Package, args: seq<Field>, storyId: string, component: Component, renderer: Option<string>,
                  registry: set<string>, fnText: FunctionText, call: nat -> string): (r: Result<Rendered>)
    requires package == AstroRenderer && component.Template? ==> PlainKeys(args)
  {
    if package != LegacyAstroRenderer && RegistryHit(renderer, registry) then Ok(Delegated(renderer.value))
    else if Missing(component) then Err(MissingComponentError(storyId))
    else match component
      case Template(template) =>
        if package == AstroRenderer then Ok(Markup(AllPlaceholders(template, args, fnText)))
        else Ok(Markup(FirstPlaceholders(template, args, fnText, call)))
      case Element(tag, attributes) => Ok(Clone(tag, SetAttributes(attributes, args)))
      case Function(id, flag) => if Truthy(flag) then Ok(Factory(id)) else Ok(Jsx(id, args))
      case _ => Err(UnsupportedComponentError(package, storyId))
  }

  /**
   * The dispatch order: a registry renderer wins over everything; without
   * it a missing component is an error naming the story; a factory comes
   * back unchanged, another function gets the args as props; a value of
   * any other kind is an error naming the story.
   */
  lemma DispatchOrder(package: Package, args: seq<Field>, storyId: string, component: Component, renderer: Option<string>,
                      registry: set<string>, fnText: FunctionText, call: nat -> string)
    requires package == AstroRenderer && component.Template? ==> PlainKeys(args)
    ensures var r := Render(package, args, storyId, component, renderer, registry, fnText, call);
      (r.Ok? && r.value.Delegated? <==> package != LegacyAstroRenderer && RegistryHit(renderer, registry))
      && (r.Err? <==> (!(package != LegacyAstroRenderer && RegistryHit(renderer, registry))
                        && (Missing(component) || component.OtherComponent?)))
      && (r.Err? ==> Contains(r.error.message, "Unable to render story " + storyId))
      && (component.Function? && !(package != LegacyAstroRenderer && RegistryHit(renderer, registry)) ==>
            r == (if Truthy(component.factoryFlag) then Ok(Factory(component.id)) else Ok(Jsx(component.id, args))))
  {
    DispatchDelegates(package, args, storyId, component, renderer, registry, fnText, call);
    DispatchFails(package, args, storyId, component, renderer, registry, fnText, call);
  }

  /** The registry renderer is used exactly when it is named and registered, outside the oldest renderer. */
  lemma DispatchDelegates(package: Package, args: seq<Field>, storyId: string, component: Component, renderer: Option<string>,
                          registry: set<string>, fnText: FunctionText, call: nat -> string)
    requires package == AstroRenderer && component.Template? ==> PlainKeys(args)
    ensures var r := Render(package, args, storyId, component, renderer, registry, fnText, call);
      r.Ok? && r.value.Delegated? <==> package != LegacyAstroRenderer && RegistryHit(renderer, registry)
  {
  }

  /** Without the registry renderer, a missing component or one of another kind fails, naming the story. */
  lemma DispatchFails(package: Package, args: seq<Field>, storyId: string, component: Component, renderer: Option<string>,
                      registry: set<string>, fnText: FunctionText, call: nat -> string)
    requires package == AstroRenderer && component.Template? ==> PlainKeys(args)
    ensures var r := Render(package, args, storyId, component, renderer, registry, fnText, call);
      (r.Err? <==> (!(package != LegacyAstroRenderer && RegistryHit(renderer, registry))
                     && (Missing(component) || component.OtherComponent?)))
      && (r.Err? ==> Contains(r.error.message, "Unable to render story " + storyId))
  {
  }

  // Errors from the Astro renderer

  /** What a `catch` receives: an `Error` or any other thrown value. */
  datatype Thrown = ThrownError(error: Error) | ThrownValue(value: Value)

  const UnreachableText := "Unable to reach Astro rendering server"

  /** `isAstroServerUnavailableError`. */
  predicate IsAstroServerUnavailableError(thrown: Thrown)
  {
    thrown.ThrownError?
    && (thrown.error.name == Correlation.UnavailableErrorName || Contains(thrown.error.message, UnreachableText))
  }

  /**
   * Both ways the core renderers report an unreachable server are
   * recognised: the HTTP renderer's named error, and the development
   * renderer's timeout.
   */
  lemma UnavailableErrorsRecognised(serverUrl: string, reason: string, id: string, timeoutMs: nat)
    ensures IsAstroServerUnavailableError(ThrownError(HttpRenderer.UnavailableError(serverUrl, reason)))
    ensures IsAstroServerUnavailableError(ThrownError(Correlation.TimeoutError(Correlation.Core, id, timeoutMs)))
    ensures forall v :: !IsAstroServerUnavailableError(ThrownValue(v))
  {
  }

  /** An error of another name is recognised by its message alone. */
  lemma UnavailableByMessage(name: string, before: string, after: string)
    ensures IsAstroServerUnavailableError(ThrownError(Error(name, before + UnreachableText + after)))
  {
    ContainsInfix(before, UnreachableText, after);
  }

  // renderToCanvas

  /** What a story function can return. */
  datatype StoryElement =
    | FunctionElement(id: nat, factoryFlag: Value, moduleId: Value)
    | ObjectElement(isNode: bool, isReactElement: bool, nodeId: nat, factoryFlag: Value, moduleId: Value)
    | StringElement(html: string)
    | PrimitiveElement(value: Value)  // undefined, null, a number or a boolean

  /** `element?.isAstroComponentFactory`. */
  function FactoryFlag(element: StoryElement): Value
  {
    match element
    case FunctionElement(_, flag, _) => flag
    case ObjectElement(_, _, _, flag, _) => flag
    case _ => Undefined
  }

  /** `element.moduleId`. */
  function ModuleId(element: StoryElement): Value
  {
    match element
    case FunctionElement(_, _, moduleId) => moduleId
    case ObjectElement(_, _, _, _, moduleId) => moduleId
    case _ => Undefined
  }

  /** How the Astro render settled. */
  datatype AstroResponse = RenderedHtml(html: string) | Threw(thrown: Thrown)

  /** What happens to the canvas. */
  datatype CanvasOutcome =
    | Shown(html: string)
    | DelegatedToCanvas(renderer: string, restyled: bool)
    | Kept
    | Mounted(nodeId: nat)
    | UnavailablePanel(message: string)           // the server could not be reached
    | NothingToRenderPanel(name: string, kind: string)  // nothing renderable came back
    | Rethrown(thrown: Thrown)
    | Requested                                   // sent over the hot channel; the listener shows the answer

  /** `const { slots = {}, ...args } = storyContext.args`: the default applies only to an absent `slots`. */
  function SplitSlots(args: seq<Field>): (r: (seq<Field>, Value))
    ensures !HasKey(r.0, "slots")
    ensures forall k :: k != "slots" ==> Lookup(r.0, k) == Lookup(args, k)
    ensures Get(args, "slots").Undefined? ==> r.1 == Obj([])
    ensures !Get(args, "slots").Undefined? ==> r.1 == Get(args, "slots")
  {
    var slots := Get(args, "slots");
    (Remove(args, "slots"), if slots.Undefined? then Obj([]) else slots)
  }

  /** Unlike the prerender plugin, the canvas keeps a `null` or string `slots` as it is. */
  lemma SlotDefaultsDiffer(args: seq<Field>)
    requires Get(args, "slots") == Null
    ensures SplitSlots(args).1 == Null
    ensures StaticPrerender.SeparateSlots(args).1 == Obj([])
  {
  }

  const UnavailableTitle := "Unable to reach Astro rendering server."
  const UnavailableLead := "Storybook could not connect to the Astro rendering server, so this Astro story cannot be rendered."

  /** The error panel's title, for the two panels. */
  function PanelTitle(outcome: CanvasOutcome): string
    requires outcome.UnavailablePanel? || outcome.NothingToRenderPanel?
  {
    if outcome.UnavailablePanel? then UnavailableTitle
    else "Expecting an HTML snippet or DOM node from the story: \"" + outcome.name + "\" of \"" + outcome.kind + "\"."
  }

  /** The error panel's description: for an unreachable server, the explanation and then the error's message. */
  function PanelDescription(outcome: CanvasOutcome): (r: string)
    requires outcome.UnavailablePanel? || outcome.NothingToRenderPanel?
    ensures outcome.UnavailablePanel? ==> StartsWith(r, UnavailableLead) && EndsWith(r, outcome.message)
  {
    if outcome.UnavailablePanel? then UnavailableLead + "\n" + outcome.message
    else "Did you forget to return the HTML snippet from the story?\nUse \"() => <your snippet or node>\" or when defining the story."
  }

  /** The request the core canvas sends to the Astro renderer. */
  function CoreRequest(element: StoryElement, args: seq<Field>, storyId: string, kind: string, name: string): Value
  {
    var split := SplitSlots(args);
    Obj([Entry("component", ModuleId(element)), Entry("args", Obj(split.0)), Entry("slots", split.1),
      Entry("story", Obj([Entry("id", Str(storyId)), Entry("title", Str(kind)), Entry("name", Str(name))]))])
  }

  /**
   * `renderToCanvas` of `@astrostory/renderer`: an element flagged as an
   * Astro component factory is rendered by the Astro renderer (and an
   * unreachable server shows a panel, any other error is rethrown); then
   * strings, the registry, DOM nodes (kept when already mounted and no
   * remount is forced), and a panel for anything else. The request sent,
   * if any, comes first.
   */
  function CoreRenderToCanvas(element: StoryElement, args: seq<Field>, storyId: string, kind: string, name: string,
                              renderer: Option<string>, registry: set<string>, forceRemount: bool, mountedIsElement: bool,
                              response: AstroResponse): (r: (Option<Value>, CanvasOutcome))
  {
    if Truthy(FactoryFlag(element)) then
      var request := CoreRequest(element, args, storyId, kind, name);
      match response
      case RenderedHtml(html) => (Some(request), Shown(html))
      case Threw(thrown) =>
        if IsAstroServerUnavailableError(thrown) then (Some(request), UnavailablePanel(thrown.error.message))
        else (Some(request), Rethrown(thrown))
    else if element.StringElement? then (None, Shown(element.html))
    else if renderer.UnwrapOr("undefined") in registry then (None, DelegatedToCanvas(renderer.UnwrapOr("undefined"), false))
    else if element.ObjectElement? && element.isNode then
      (None, if mountedIsElement && !forceRemount then Kept else Mounted(element.nodeId))
    else (None, NothingToRenderPanel(name, kind))
  }

  /**
   * The request carries the story's args without `slots`, the slots, and
   * the story's id, title and name.
   */
  lemma CoreRequestFacts(element: StoryElement, args: seq<Field>, storyId: string, kind: string, name: string)
    ensures var fields := CoreRequest(element, args, storyId, kind, name).fields;
      Get(fields, "component") == ModuleId(element)
      && Get(fields, "args") == Obj(SplitSlots(args).0) && !HasKey(SplitSlots(args).0, "slots")
      && Get(fields, "slots") == SplitSlots(args).1
      && Get(fields, "story") == Obj([Entry("id", Str(storyId)), Entry("title", Str(kind)), Entry("name", Str(name))])
  {
    var fields := CoreRequest(element, args, storyId, kind, name).fields;
    assert Lookup(fields[3..], "story") == Some(fields[3].val);
    assert Lookup(fields[2..], "slots") == Some(fields[2].val);
    assert Lookup(fields[2..], "story") == Lookup(fields[3..], "story");
    assert Lookup(fields[1..], "args") == Some(fields[1].val);
    assert Lookup(fields[1..], "slots") == Lookup(fields[2..], "slots");
    assert Lookup(fields[1..], "story") == Lookup(fields[2..], "story");
  }

  /**
   * Only an Astro factory sends a request; a server that cannot be reached
   * shows the panel with the error's message, and every other failure
   * propagates.
   */
  lemma CoreCanvasFacts(element: StoryElement, args: seq<Field>, storyId: string, kind: string, name: string,
                        renderer: Option<string>, registry: set<string>, forceRemount: bool, mountedIsElement: bool,
                        response: AstroResponse)
    ensures var r := CoreRenderToCanvas(element, args, storyId, kind, name, renderer, registry, forceRemount, mountedIsElement, response);
      (r.0 == if Truthy(FactoryFlag(element)) then Some(CoreRequest(element, args, storyId, kind, name)) else None)
      && (r.1.Rethrown? <==> (Truthy(FactoryFlag(element)) && response.Threw? && !IsAstroServerUnavailableError(response.thrown)))
      && (r.1.UnavailablePanel? <==> (Truthy(FactoryFlag(element)) && response.Threw? && IsAstroServerUnavailableError(response.thrown)))
      && (r.1.UnavailablePanel? ==> r.1.message == response.thrown.error.message)
  {
  }

  /** `isAstroComponent`: a function whose flag is exactly `true`. */
  predicate IsAstroComponent(element: StoryElement)
  {
    element.FunctionElement? && element.factoryFlag == Bool(true)
  }

  const MissingModuleIdError := Fail("Astro component missing moduleId")

  /**
   * `renderToCanvas` of `@storybook/astro-renderer/src`: an Astro
   * component needs a module id and is rendered from `{component, args,
   * slots}` (errors propagate); then strings, the registry (Svelte gets
   * the Astro styles re-applied), DOM nodes, and the panel.
   */
  function CanvasRenderToCanvas(element: StoryElement, args: seq<Field>, kind: string, name: string,
                                renderer: Option<string>, registry: set<string>, forceRemount: bool, mountedIsElement: bool,
                                response: AstroResponse): (r: (Option<Value>, CanvasOutcome))
  {
    if IsAstroComponent(element) then
      if !Truthy(element.moduleId) then (None, Rethrown(ThrownError(MissingModuleIdError)))
      else
        var split := SplitSlots(args);
        var request := Obj([Entry("component", element.moduleId), Entry("args", Obj(split.0)), Entry("slots", split.1)]);
        match response
        case RenderedHtml(html) => (Some(request), Shown(html))
        case Threw(thrown) => (Some(request), Rethrown(thrown))
    else if element.StringElement? then (None, Shown(element.html))
    else if RegistryHit(renderer, registry) then (None, DelegatedToCanvas(renderer.value, renderer.value == "svelte"))
    else if element.ObjectElement? && element.isNode then
      (None, if mountedIsElement && !forceRemount then Kept else Mounted(element.nodeId))
    else (None, NothingToRenderPanel(name, kind))
  }

  /**
   * A flag that is merely truthy is enough for the core canvas but not for
   * this one; without a module id nothing is sent; only Svelte is
   * restyled after delegation; and a mounted node is kept only when no
   * remount is forced.
   */
  lemma CanvasFacts(element: StoryElement, args: seq<Field>, kind: string, name: string,
                    renderer: Option<string>, registry: set<string>, forceRemount: bool, mountedIsElement: bool,
                    response: AstroResponse)
    ensures var r := CanvasRenderToCanvas(element, args, kind, name, renderer, registry, forceRemount, mountedIsElement, response);
      (r.0.Some? <==> IsAstroComponent(element) && Truthy(element.moduleId))
      && (IsAstroComponent(element) && !Truthy(element.moduleId) ==> r.1 == Rethrown(ThrownError(MissingModuleIdError)))
      && (r.1.DelegatedToCanvas? ==> (r.1.restyled <==> r.1.renderer == "svelte"))
      && (r.1 == Kept <==> (!IsAstroComponent(element) && !element.StringElement? && !RegistryHit(renderer, registry)
                             && element.ObjectElement? && element.isNode && mountedIsElement && !forceRemount))
  {
  }

  /** An element flagged with a truthy value other than `true` is an Astro factory to the core canvas only. */
  lemma TruthyFlagOnlyForCore(id: nat, moduleId: Value, args: seq<Field>, storyId: string, kind: string, name: string,
                              registry: set<string>, response: AstroResponse)
    requires Truthy(moduleId)
    ensures CoreRenderToCanvas(FunctionElement(id, Num(1), moduleId), args, storyId, kind, name, None, registry, false, false, response).0.Some?
    ensures CanvasRenderToCanvas(FunctionElement(id, Num(1), moduleId), args, kind, name, None, registry, false, false, response).0.None?
  {
  }

  /** Reading `isAstroComponentFactory` of `undefined` or `null`, in the wording of V8. */
  function PropertyOfNothingError(nothing: Value): Error
  {
    Error("TypeError", "Cannot read properties of " + (if nothing.Null? then "null" else "undefined")
      + " (reading 'isAstroComponentFactory')")
  }

  /**
   * `renderToCanvas` of the oldest renderer: an element flagged as an Astro
   * component factory is sent over the hot channel as `{component, args,
   * slots}` (the `astro:render:response` listener shows the answer); then
   * strings, DOM nodes, React elements (handed to the React renderer), and
   * the panel. It reads the flag without `?.`, so a story returning
   * `undefined` or `null` throws.
   */
  function LegacyRenderToCanvas(element: StoryElement, args: seq<Field>, kind: string, name: string,
                                forceRemount: bool, mountedIsElement: bool): (r: (Option<Value>, CanvasOutcome))
  {
    if element.PrimitiveElement? && (element.value.Undefined? || element.value.Null?) then
      (None, Rethrown(ThrownError(PropertyOfNothingError(element.value))))
    else if Truthy(FactoryFlag(element)) then
      var split := SplitSlots(args);
      (Some(Obj([Entry("component", ModuleId(element)), Entry("args", Obj(split.0)), Entry("slots", split.1)])), Requested)
    else if element.StringElement? then (None, Shown(element.html))
    else if element.ObjectElement? && element.isNode then
      (None, if mountedIsElement && !forceRemount then Kept else Mounted(element.nodeId))
    else if element.ObjectElement? && element.isReactElement then (None, DelegatedToCanvas("react", false))
    else (None, NothingToRenderPanel(name, kind))
  }

  /**
   * The oldest renderer sends a request exactly for a flagged element, and
   * the request names no story; a nullish story result throws; React
   * elements that are not DOM nodes go to the React renderer.
   */
  lemma LegacyCanvasFacts(element: StoryElement, args: seq<Field>, kind: string, name: string,
                          forceRemount: bool, mountedIsElement: bool)
    ensures var r := LegacyRenderToCanvas(element, args, kind, name, forceRemount, mountedIsElement);
      (r.0.Some? <==> Truthy(FactoryFlag(element)))
      && (r.0.Some? ==> (r.0.value.Obj? && !HasKey(r.0.value.fields, "story") && Get(r.0.value.fields, "slots") == SplitSlots(args).1))
      && (r.1.Rethrown? <==> (element.PrimitiveElement? && !Defined(element.value)))
      && (r.1.DelegatedToCanvas? <==> (element.ObjectElement? && !element.isNode && element.isReactElement && !Truthy(element.factoryFlag)))
  {
    var r := LegacyRenderToCanvas(element, args, kind, name, forceRemount, mountedIsElement);
    if r.0.Some? {
      var fields := r.0.value.fields;
      assert Lookup(fields[2..], "slots") == Some(fields[2].val);
      assert Lookup(fields[1..], "slots") == Lookup(fields[2..], "slots");
    }
  }
}
