/**
 * Portable stories: `composeStory` and `composeStories` hand a story to
 * Storybook's own composition with project annotations whose `render`
 * falls back to a local one, which returns the component and the
 * remaining args instead of rendering anything.
 */
module PortableStories {
  import opened Wrappers
  import opened Records
  import opened Values

  /** The local `render`: `const { component, ...otherArgs } = args; return { component, args: otherArgs }`. */
  function LocalRender(args: seq<Field>): Value
  {
    Obj([Entry("component", Get(args, "component")), Entry("args", Obj(Remove(args, "component")))])
  }

  /** The result names the `component` arg and carries every other arg, and only those. */
  lemma LocalRenderFacts(args: seq<Field>)
    ensures var fields := LocalRender(args).fields;
      Get(fields, "component") == Get(args, "component")
      && Get(fields, "args").Obj?
      && !HasKey(Get(fields, "args").fields, "component")
      && (forall k :: k != "component" ==> Lookup(Get(fields, "args").fields, k) == Lookup(args, k))
  {
    var fields := LocalRender(args).fields;
    assert Lookup(fields[1..], "args") == Some(fields[1].val);
  }

  /**
   * `projectAnnotations ? { ...projectAnnotations, render:
   * projectAnnotations.render || render } : { render }`, the same in
   * `composeStory` and `composeStories`.
   */
  function MergedProjectAnnotations(project: Option<seq<Field>>, localRender: Value): seq<Field>
  {
    match project
    case None => [Entry("render", localRender)]
    case Some(annotations) =>
      var render := Get(annotations, "render");
      Assign(annotations, "render", if Truthy(render) then render else localRender)
  }

  /**
   * A project's own truthy `render` is kept, otherwise the local one is
   * used; every other annotation is kept as it is, and nothing is added
   * besides `render`.
   */
  lemma MergedProjectAnnotationsFacts(project: Option<seq<Field>>, localRender: Value)
    ensures var merged := MergedProjectAnnotations(project, localRender);
      (project.Some? && Truthy(Get(project.value, "render")) ==> Get(merged, "render") == Get(project.value, "render"))
      && (project.None? || !Truthy(Get(project.value, "render")) ==> Get(merged, "render") == localRender)
      && (forall k :: k != "render" ==> Lookup(merged, k) == (if project.Some? then Lookup(project.value, k) else None))
      && (forall k :: HasKey(merged, k) <==> (k == "render" || (project.Some? && HasKey(project.value, k))))
  {
    var merged := MergedProjectAnnotations(project, localRender);
    forall k ensures HasKey(merged, k) <==> (k == "render" || (project.Some? && HasKey(project.value, k))) {
      if project.Some? {
        if HasKey(project.value, "render") {
          assert Keys(merged) == Keys(project.value);
        } else {
          assert Keys(merged) == Keys(project.value) + ["render"];
        }
      } else {
        assert Keys(merged) == ["render"];
      }
    }
  }

  /** Writing back the value a key already has changes nothing. */
  lemma {:induction false} AssignSame<V>(entries: seq<Entry<V>>, key: string)
    requires HasKey(entries, key)
    ensures Assign(entries, key, Lookup(entries, key).value) == entries
  {
    if entries[0].key != key {
      assert Keys(entries) == [entries[0].key] + Keys(entries[1..]);
      AssignSame(entries[1..], key);
    }
  }

  /** Composing with already merged annotations merges nothing more. */
  lemma MergeIdempotent(project: Option<seq<Field>>, localRender: Value)
    requires Truthy(localRender)
    ensures var merged := MergedProjectAnnotations(project, localRender);
      MergedProjectAnnotations(Some(merged), localRender) == merged
  {
    var merged := MergedProjectAnnotations(project, localRender);
    MergedProjectAnnotationsFacts(project, localRender);
    AssignSame(merged, "render");
  }
}
