/** LayoutListView: a list view whose layout is a view file. When
    `layoutView` is set, run() renders that view with `layoutViewParams` and
    substitutes the section tokens into it; an empty list with `showOnEmpty`
    off shows renderEmpty() instead. */
module LayoutListView {
  import opened Wrappers
  import opened ListSections

  /** The widget's properties; a view left unset is None. */
  datatype Config = Config(
    layoutView: Option<string>,
    layoutViewParams: Params,
    emptyView: Option<string>,
    emptyViewParams: Params,
    showOnEmpty: bool)

  /** PHP's empty() on a view property. */
  predicate IsEmpty(view: Option<string>): (r: bool)
    ensures view.None? ==> r
    ensures view.Some? ==> (r <==> view.value == "" || view.value == "0")
  {
    view.None? || EmptyString(view.value)
  }

  /** renderEmpty(): ListView's own empty text when `emptyView` is empty,
      otherwise the empty view rendered with `emptyViewParams`.
      `parentEmpty` is what ListView::renderEmpty() returns and `renderView`
      is the view renderer. */
  function RenderEmpty(w: Config, parentEmpty: string, renderView: (string, Params) -> string): (r: Rendered)
    ensures IsEmpty(w.emptyView) ==> r == Rendered(parentEmpty, [ParentRenderEmpty])
    ensures !IsEmpty(w.emptyView) ==>
              r == Rendered(renderView(w.emptyView.value, w.emptyViewParams),
                            [RenderView(w.emptyView.value, w.emptyViewParams)])
  {
    if IsEmpty(w.emptyView) then Rendered(parentEmpty, [ParentRenderEmpty])
    else
      var view := w.emptyView.value;
      Rendered(renderView(view, w.emptyViewParams), [RenderView(view, w.emptyViewParams)])
  }

  /** run(). `count` is the data provider's item count. */
  method Run(w: Config, count: nat, parentEmpty: string,
             renderView: (string, Params) -> string, renderSection: string -> string)
    returns (out: Output, calls: seq<Call>)
    ensures IsEmpty(w.layoutView) ==> out == ParentOutput && calls == [ParentRun]
    ensures !IsEmpty(w.layoutView) && (count > 0 || w.showOnEmpty) ==>
              var view := w.layoutView.value;
              var layout := renderView(view, w.layoutViewParams);
              && out == Echo(Substituted(layout, SectionTokens, renderSection))
              && calls == [RenderView(view, w.layoutViewParams)] + SectionCalls(layout, SectionTokens, renderSection)
    ensures !IsEmpty(w.layoutView) && count == 0 && !w.showOnEmpty ==>
              && out == Echo(RenderEmpty(w, parentEmpty, renderView).text)
              && calls == RenderEmpty(w, parentEmpty, renderView).calls
  {
    if IsEmpty(w.layoutView) {
      return ParentOutput, [ParentRun];
    }
    var content: string;
    if count > 0 || w.showOnEmpty {
      var view := w.layoutView.value;
      content := renderView(view, w.layoutViewParams);
      var sectionCalls;
      content, sectionCalls := ReplaceSections(content, renderSection);
      calls := [RenderView(view, w.layoutViewParams)] + sectionCalls;
    } else {
      var empty := RenderEmpty(w, parentEmpty, renderView);
      content, calls := empty.text, empty.calls;
    }
    out := Echo(content);
  }

  /** When the list is empty and `showOnEmpty` is off, no section is
      rendered and the layout view is not rendered unless it is also the
      empty view. */
  lemma EmptyListSkipsLayout(w: Config, parentEmpty: string, renderView: (string, Params) -> string)
    requires !IsEmpty(w.layoutView)
    ensures forall c :: c in RenderEmpty(w, parentEmpty, renderView).calls ==>
              !c.RenderSection? && !c.ParentRun? &&
              (c == RenderView(w.layoutView.value, w.layoutViewParams) ==>
                 w.emptyView == w.layoutView && w.emptyViewParams == w.layoutViewParams)
  {
  }
}
