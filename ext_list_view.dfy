/** ExtListView: LayoutListView whose layout and empty view may also be
    closures. A closure is called with no arguments and its result is used as
    is; a view is rendered with its parameters. */
module ExtListView {
  import opened Wrappers
  import opened ListSections
  import LayoutListView

  /** A `string|Closure` property. `call` stands for the closure: the text it
      returns when called with no arguments. */
  datatype Source = Unset | View(name: string) | Closure(call: () -> string)

  datatype Config = Config(
    layoutView: Source,
    layoutViewParams: Params,
    emptyView: Source,
    emptyViewParams: Params,
    showOnEmpty: bool)

  /** PHP's empty(): a closure object is never empty. */
  predicate IsEmpty(s: Source): (r: bool)
    ensures s.Unset? ==> r
    ensures s.Closure? ==> !r
    ensures s.View? ==> (r <==> s.name == "" || s.name == "0")
  {
    s.Unset? || (s.View? && EmptyString(s.name))
  }

  /** `$s instanceof Closure ? call_user_func($s) : getView()->render($s, $params)`. */
  function Produce(s: Source, params: Params, renderView: (string, Params) -> string): (r: Rendered)
    requires !IsEmpty(s)
    ensures s.Closure? ==> r == Rendered(s.call(), [InvokeClosure])
    ensures s.View? ==> r == Rendered(renderView(s.name, params), [RenderView(s.name, params)])
  {
    match s
    case Closure(call) => Rendered(call(), [InvokeClosure])
    case View(name) => Rendered(renderView(name, params), [RenderView(name, params)])
  }

  /** renderEmpty(): ListView's own empty text when `emptyView` is empty,
      otherwise the closure's result or the view rendered with
      `emptyViewParams`. */
  function RenderEmpty(w: Config, parentEmpty: string, renderView: (string, Params) -> string): (r: Rendered)
    ensures IsEmpty(w.emptyView) ==> r == Rendered(parentEmpty, [ParentRenderEmpty])
    ensures w.emptyView.Closure? ==> r == Rendered(w.emptyView.call(), [InvokeClosure])
    ensures !IsEmpty(w.emptyView) && w.emptyView.View? ==>
              r == Rendered(renderView(w.emptyView.name, w.emptyViewParams),
                            [RenderView(w.emptyView.name, w.emptyViewParams)])
  {
    if IsEmpty(w.emptyView) then Rendered(parentEmpty, [ParentRenderEmpty])
    else Produce(w.emptyView, w.emptyViewParams, renderView)
  }

  /** run(). `count` is the data provider's item count. */
  method Run(w: Config, count: nat, parentEmpty: string,
             renderView: (string, Params) -> string, renderSection: string -> string)
    returns (out: Output, calls: seq<Call>)
    ensures IsEmpty(w.layoutView) ==> out == ParentOutput && calls == [ParentRun]
    ensures !IsEmpty(w.layoutView) && (count > 0 || w.showOnEmpty) ==>
              var layout := Produce(w.layoutView, w.layoutViewParams, renderView);
              && out == Echo(Substituted(layout.text, SectionTokens, renderSection))
              && calls == layout.calls + SectionCalls(layout.text, SectionTokens, renderSection)
    ensures !IsEmpty(w.layoutView) && count == 0 && !w.showOnEmpty ==>
              && out == Echo(RenderEmpty(w, parentEmpty, renderView).text)
              && calls == RenderEmpty(w, parentEmpty, renderView).calls
  {
    if IsEmpty(w.layoutView) {
      return ParentOutput, [ParentRun];
    }
    var content: string;
    if count > 0 || w.showOnEmpty {
      var layout := Produce(w.layoutView, w.layoutViewParams, renderView);
      var sectionCalls;
      content, sectionCalls := ReplaceSections(layout.text, renderSection);
      calls := layout.calls + sectionCalls;
    } else {
      var empty := RenderEmpty(w, parentEmpty, renderView);
      content, calls := empty.text, empty.calls;
    }
    out := Echo(content);
  }

  /** A closure is called without the parameters: what it produces does not
      depend on them, while a view is rendered with exactly them. */
  lemma ClosureIgnoresParams(s: Source, p1: Params, p2: Params, renderView: (string, Params) -> string)
    requires !IsEmpty(s)
    ensures s.Closure? ==> Produce(s, p1, renderView) == Produce(s, p2, renderView)
    ensures s.View? ==> Produce(s, p1, renderView).calls == [RenderView(s.name, p1)]
  {
  }

  /** The ExtListView configuration with the same view names. */
  function FromLayoutConfig(c: LayoutListView.Config): (r: Config)
    ensures IsEmpty(r.layoutView) <==> LayoutListView.IsEmpty(c.layoutView)
    ensures IsEmpty(r.emptyView) <==> LayoutListView.IsEmpty(c.emptyView)
  {
    Config(FromOption(c.layoutView), c.layoutViewParams,
           FromOption(c.emptyView), c.emptyViewParams, c.showOnEmpty)
  }

  function FromOption(v: Option<string>): Source {
    match v
    case None => Unset
    case Some(name) => View(name)
  }

  /** Without closures the two widgets agree: the same decision to defer,
      the same empty output and the same layout text and calls. */
  lemma AgreesWithLayoutListView(c: LayoutListView.Config, parentEmpty: string,
                                 renderView: (string, Params) -> string)
    ensures RenderEmpty(FromLayoutConfig(c), parentEmpty, renderView)
            == LayoutListView.RenderEmpty(c, parentEmpty, renderView)
    ensures !LayoutListView.IsEmpty(c.layoutView) ==>
              var view := c.layoutView.value;
              Produce(FromLayoutConfig(c).layoutView, c.layoutViewParams, renderView)
              == Rendered(renderView(view, c.layoutViewParams), [RenderView(view, c.layoutViewParams)])
  {
  }
}
