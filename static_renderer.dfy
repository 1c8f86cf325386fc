/**
 * The static renderer of `@astrostory/core` (`renderer/renderer-static.ts`):
 * a story's html is looked up in the map of prerendered stories, which is
 * fetched from the static output once and shared by every later render,
 * even when that one fetch failed.
 *
 * The fresh id and the way the one fetch settles are inputs; the JSON
 * body is taken as already parsed into a map from story id to html.
 */
module StaticRenderer {
  import opened Wrappers
  import opened Text
  import HttpRenderer

  const PrerenderedStoriesFile := "astro-prerendered-stories.json"

  const MissingIdError := Fail("Astro static renderer expected a story id, but none was provided in the render payload.")

  /** The error for a story that has no prerendered html. */
  function MissingEntryError(storyId: string): Error
  {
    Fail("No prerendered HTML was found for story \"" + storyId + "\". Rebuild Storybook static output.")
  }

  /** A response to the fetch of the prerendered-stories file, with its parsed JSON body. */
  datatype StoriesResponse = StoriesResponse(ok: bool, status: nat, statusText: string, stories: map<string, string>)

  /** The rejection for a response that is not OK. */
  function LoadFailure(response: StoriesResponse): Error
  {
    Fail("Failed to load " + PrerenderedStoriesFile + ". Received " + NatToString(response.status) + " " + response.statusText + ".")
  }

  /** How the one fetch settles: rejected as `fetch` rejects, rejected on a failed status, or the parsed map. */
  function LoadOutcome(fetched: Result<StoriesResponse>): (r: Result<map<string, string>>)
    ensures fetched.Err? ==> r == Err(fetched.error)
    ensures fetched.Ok? && !fetched.value.ok ==> r == Err(LoadFailure(fetched.value))
    ensures fetched.Ok? && fetched.value.ok ==> r == Ok(fetched.value.stories)
  {
    match fetched
    case Err(e) => Err(e)
    case Ok(response) => if response.ok then Ok(response.stories) else Err(LoadFailure(response))
  }

  /** The failed-status message names the file and the status code. */
  lemma LoadFailureNamesFileAndStatus(response: StoriesResponse)
    ensures Contains(LoadFailure(response).message, PrerenderedStoriesFile)
    ensures Contains(LoadFailure(response).message, NatToString(response.status))
  {
    SecondAndFourthContained("Failed to load ", PrerenderedStoriesFile, ". Received ", NatToString(response.status),
      " ", response.statusText, ".");
  }

  /** The second and the fourth of seven joined parts are contained in the whole. */
  lemma SecondAndFourthContained(a: string, f: string, b: string, s: string, c: string, d: string, e: string)
    ensures Contains(a + f + b + s + c + d + e, f)
    ensures Contains(a + f + b + s + c + d + e, s)
  {
    var whole := a + f + b + s + c + d + e;
    assert whole == a + f + (b + s + c + d + e);
    ContainsInfix(a, f, b + s + c + d + e);
    assert whole == (a + f + b) + s + (c + d + e);
    ContainsInfix(a + f + b, s, c + d + e);
  }

  /** The html for a story: exactly the map's entry, or an error naming the story. */
  function LookupHtml(stories: map<string, string>, storyId: string): (r: Result<string>)
    ensures r.Ok? <==> storyId in stories
    ensures r.Ok? ==> r.value == stories[storyId]
    ensures r.Err? ==> r.error == MissingEntryError(storyId) && Contains(r.error.message, storyId)
  {
    if storyId in stories then Ok(stories[storyId])
    else
      ContainsInfix("No prerendered HTML was found for story \"", storyId, "\". Rebuild Storybook static output.");
      Err(MissingEntryError(storyId))
  }

  /** `data.story?.id` is missing: absent or empty. */
  predicate MissingId(storyId: Option<string>)
  {
    storyId.None? || storyId.value == ""
  }

  /** The result of a render once the map has settled as `stories`. */
  function RenderFrom(stories: Result<map<string, string>>, storyId: string, id: string): (r: Result<HttpRenderer.RenderData>)
    ensures stories.Err? ==> r == Err(stories.error)
    ensures stories.Ok? && storyId in stories.value ==> r == Ok(HttpRenderer.RenderData(id, stories.value[storyId]))
    ensures stories.Ok? && storyId !in stories.value ==> r == Err(MissingEntryError(storyId))
  {
    match stories
    case Err(e) => Err(e)
    case Ok(m) =>
      match LookupHtml(m, storyId)
      case Ok(html) => Ok(HttpRenderer.RenderData(id, html))
      case Err(e) => Err(e)
  }

  /**
   * The module state: the memoised promise of the prerendered map
   * (`prerenderedStoriesPromise`), and, as ghost state, how many times the
   * file was fetched.
   */
  class PrerenderedStories {
    var promise: Option<Result<map<string, string>>>
    ghost var fetches: nat

    /** The file is fetched once, exactly when the promise exists. */
    ghost predicate Valid()
      reads this
    {
      fetches == if promise.Some? then 1 else 0
    }

    constructor ()
      ensures Valid() && promise == None
    {
      promise := None;
      fetches := 0;
    }

    /**
     * `loadPrerenderedStories`: the first call fetches and keeps the
     * outcome, whatever it is; later calls return the kept outcome and
     * never fetch again.
     */
    method Load(fetched: Result<StoriesResponse>) returns (r: Result<map<string, string>>)
      requires Valid()
      modifies this
      ensures Valid() && fetches <= 1
      ensures old(promise).Some? ==> r == old(promise).value && promise == old(promise) && fetches == old(fetches)
      ensures old(promise).None? ==> r == LoadOutcome(fetched) && promise == Some(r)
    {
      if promise.None? {
        promise := Some(LoadOutcome(fetched));
        fetches := fetches + 1;
      }
      r := promise.value;
    }

    /**
     * `render`: a missing story id throws before anything is loaded;
     * otherwise the html is the loaded map's entry for the id.
     */
    method Render(storyId: Option<string>, id: string, fetched: Result<StoriesResponse>) returns (r: Result<HttpRenderer.RenderData>)
      requires Valid()
      modifies this
      ensures Valid() && fetches <= 1
      ensures MissingId(storyId) ==> r == Err(MissingIdError) && promise == old(promise) && fetches == old(fetches)
      ensures !MissingId(storyId) && old(promise).Some? ==> r == RenderFrom(old(promise).value, storyId.value, id) && promise == old(promise)
      ensures !MissingId(storyId) && old(promise).None? ==> r == RenderFrom(LoadOutcome(fetched), storyId.value, id) && promise == Some(LoadOutcome(fetched))
    {
      if MissingId(storyId) {
        return Err(MissingIdError);
      }
      var stories := Load(fetched);
      match stories {
        case Err(e) =>
          r := Err(e);
        case Ok(m) =>
          var html := LookupHtml(m, storyId.value);
          if html.Err? {
            r := Err(html.error);
          } else {
            r := Ok(HttpRenderer.RenderData(id, html.value));
          }
      }
    }
  }

  /** A failed fetch stays cached: a later render fails the same way even if the file is now reachable. */
  method FailedLoadIsKept(storyId: string, first: Result<StoriesResponse>, second: Result<StoriesResponse>)
    returns (r1: Result<HttpRenderer.RenderData>, r2: Result<HttpRenderer.RenderData>)
    requires storyId != ""
    requires LoadOutcome(first).Err?
    ensures r1 == r2 == Err(LoadOutcome(first).error)
  {
    var cache := new PrerenderedStories();
    r1 := cache.Render(Some(storyId), "a", first);
    r2 := cache.Render(Some(storyId), "b", second);
    assert cache.fetches == 1;
  }
}
