/**
 * The editor configuration's shared wiring: the root container, the two
 * optional wrappers (`withContainer`, `withBackgroundColor`) and the loop
 * that injects the two shared fields, their defaults and the wrappers into
 * every component. Rendering is modelled as a small tree of elements.
 */
module PuckConfig {
  import opened Wrappers

  /** A prop value, as the editor stores it. */
  datatype Value =
    | Str(s: string)
    | Num(n: int)
    | Bool(b: bool)
    | Null
    | List(items: seq<Value>)
    | Obj(members: map<string, Value>)

  /** JavaScript truthiness; a missing prop (`undefined`) is `None`. */
  predicate Truthy(v: Option<Value>) {
    match v
    case None => false
    case Some(Str(s)) => s != []
    case Some(Num(n)) => n != 0
    case Some(Bool(b)) => b
    case Some(Null) => false
    case Some(List(_)) => true
    case Some(Obj(_)) => true
  }

  type Props = map<string, Value>

  function Lookup(props: Props, key: string): Option<Value> {
    if key in props then Some(props[key]) else None
  }

  const BackgroundColorKey := "backgroundColor"
  const ContainerMaxWidthKey := "containerMaxWidth"

  /** What a render produces: an element with a style, or a component instance. */
  datatype Node =
    | Element(tag: string, style: map<string, Value>, children: seq<Node>)
    | Instance(component: string, props: Props)

  /** A render function: a component, possibly wrapped. */
  datatype Renderer =
    | Base(component: string)
    | WithContainer(inner: Renderer)
    | WithBackgroundColor(inner: Renderer)

  /** The centred column `withContainer` puts around a component. */
  function ContainerStyle(maxWidth: Value): map<string, Value> {
    map["maxWidth" := maxWidth, "marginLeft" := Str("auto"), "marginRight" := Str("auto"), "width" := Str("100%")]
  }

  /** The full-bleed band `withBackgroundColor` puts around a component. */
  function BackgroundStyle(color: Value): map<string, Value> {
    map["backgroundColor" := color, "width" := Str("100vw"), "marginLeft" := Str("calc(50% - 50vw)")]
  }

  /** The component at the bottom of a chain of wrappers. */
  function BaseComponent(r: Renderer): string {
    match r
    case Base(name) => name
    case WithContainer(inner) => BaseComponent(inner)
    case WithBackgroundColor(inner) => BaseComponent(inner)
  }

  /** The number of wrappers around the base component. */
  function Layers(r: Renderer): nat {
    match r
    case Base(_) => 0
    case WithContainer(inner) => 1 + Layers(inner)
    case WithBackgroundColor(inner) => 1 + Layers(inner)
  }

  /** The prop keys the wrappers of `r` take for themselves. */
  function TakenKeys(r: Renderer): set<string> {
    match r
    case Base(_) => {}
    case WithContainer(inner) => {ContainerMaxWidthKey} + TakenKeys(inner)
    case WithBackgroundColor(inner) => {BackgroundColorKey} + TakenKeys(inner)
  }

  /**
   * Rendering a (wrapped) component. Each wrapper takes its own key out of
   * the props, and adds a `div` only when that key's value is truthy. So a
   * render has at most one `div` per wrapper, and beneath the `div`s lies the
   * base component, given the props without any key a wrapper took.
   */
  function Render(r: Renderer, props: Props): (n: Node)
    ensures WrapperDepth(n) <= Layers(r)
    ensures Peel(n, WrapperDepth(n)) == Instance(BaseComponent(r), props - TakenKeys(r))
  {
    match r
    case Base(name) =>
      assert props - {} == props;
      Instance(name, props)
    case WithContainer(inner) =>
      var v := Lookup(props, ContainerMaxWidthKey);
      var inside := Render(inner, props - {ContainerMaxWidthKey});
      assert props - {ContainerMaxWidthKey} - TakenKeys(inner) == props - TakenKeys(r);
      if Truthy(v) then Element("div", ContainerStyle(v.value), [inside]) else inside
    case WithBackgroundColor(inner) =>
      var v := Lookup(props, BackgroundColorKey);
      var inside := Render(inner, props - {BackgroundColorKey});
      assert props - {BackgroundColorKey} - TakenKeys(inner) == props - TakenKeys(r);
      if Truthy(v) then Element("div", BackgroundStyle(v.value), [inside]) else inside
  }

  // ---------------------------------------------------------------------------
  // Root
  // ---------------------------------------------------------------------------

  const RootDefaultMaxWidth := Str("1440px")

  /** The root's `defaultProps`. */
  const RootDefaultProps: Props := map["maxWidth" := RootDefaultMaxWidth]

  /**
   * The root render: a centred column holding the page's children, as wide
   * as its `maxWidth` prop, `1440px` when that is empty or missing.
   */
  function RootRender(props: Props, children: seq<Node>): (n: Node)
    ensures n.Element? && n.tag == "div" && n.children == children
    ensures n.style.Keys == {"maxWidth", "marginLeft", "marginRight", "width"}
    ensures Truthy(Lookup(props, "maxWidth")) ==> n.style["maxWidth"] == props["maxWidth"]
    ensures !Truthy(Lookup(props, "maxWidth")) ==> n.style["maxWidth"] == Str("1440px")
    ensures n.style["marginLeft"] == n.style["marginRight"] == Str("auto") && n.style["width"] == Str("100%")
  {
    var w := Lookup(props, "maxWidth");
    Element("div",
      map["maxWidth" := if Truthy(w) then w.value else RootDefaultMaxWidth,
          "marginLeft" := Str("auto"), "marginRight" := Str("auto"), "width" := Str("100%")],
      children)
  }

  /** With the root's default props the column is `1440px` wide. */
  lemma RootMaxWidth(children: seq<Node>)
    ensures RootRender(RootDefaultProps, children).style["maxWidth"] == Str("1440px")
  {
  }

  // ---------------------------------------------------------------------------
  // Wrappers
  // ---------------------------------------------------------------------------

  /** The number of single-child wrapper elements above the first instance. */
  function WrapperDepth(n: Node): nat {
    match n
    case Instance(_, _) => 0
    case Element(_, _, children) => if |children| == 1 then 1 + WrapperDepth(children[0]) else 0
  }

  /** What lies `k` wrapper levels down. */
  function Peel(n: Node, k: nat): Node {
    if k == 0 then n
    else match n
      case Instance(_, _) => n
      case Element(_, _, children) => if |children| == 1 then Peel(children[0], k - 1) else n
  }

  function WrapperCount(props: Props): nat {
    (if Truthy(Lookup(props, BackgroundColorKey)) then 1 else 0)
    + (if Truthy(Lookup(props, ContainerMaxWidthKey)) then 1 else 0)
  }

  /**
   * With an empty value `withContainer` renders the component alone, without
   * the key; with a value it adds exactly one wrapper, a centred column of
   * that maximum width.
   */
  lemma ContainerWrapper(inner: Renderer, props: Props)
    ensures var n := Render(WithContainer(inner), props);
      var rest := props - {ContainerMaxWidthKey};
      && ContainerMaxWidthKey !in rest
      && (!Truthy(Lookup(props, ContainerMaxWidthKey)) ==> n == Render(inner, rest))
      && (Truthy(Lookup(props, ContainerMaxWidthKey)) ==>
            n.Element? && n.children == [Render(inner, rest)]
            && n.style.Keys == {"maxWidth", "marginLeft", "marginRight", "width"}
            && n.style["maxWidth"] == props[ContainerMaxWidthKey]
            && n.style["marginLeft"] == n.style["marginRight"] == Str("auto")
            && n.style["width"] == Str("100%"))
  {
  }

  /**
   * With an empty value `withBackgroundColor` renders the component alone,
   * without the key; with a value it adds one full-bleed band of that colour.
   */
  lemma BackgroundWrapper(inner: Renderer, props: Props)
    ensures var n := Render(WithBackgroundColor(inner), props);
      var rest := props - {BackgroundColorKey};
      && BackgroundColorKey !in rest
      && (!Truthy(Lookup(props, BackgroundColorKey)) ==> n == Render(inner, rest))
      && (Truthy(Lookup(props, BackgroundColorKey)) ==>
            n.Element? && n.children == [Render(inner, rest)]
            && n.style.Keys == {"backgroundColor", "width", "marginLeft"}
            && n.style["backgroundColor"] == props[BackgroundColorKey]
            && n.style["width"] == Str("100vw")
            && n.style["marginLeft"] == Str("calc(50% - 50vw)"))
  {
  }

  /**
   * The injected render of a component: one wrapper per truthy shared prop,
   * the background band outside the container column, and underneath them
   * the component itself with neither shared key in its props.
   */
  lemma InjectedRenderShape(name: string, props: Props)
    ensures var n := Render(WithBackgroundColor(WithContainer(Base(name))), props);
      var inner := Instance(name, props - {BackgroundColorKey, ContainerMaxWidthKey});
      && WrapperDepth(n) == WrapperCount(props)
      && Peel(n, WrapperCount(props)) == inner
      && BackgroundColorKey !in inner.props && ContainerMaxWidthKey !in inner.props
      && (Truthy(Lookup(props, BackgroundColorKey)) ==>
            n.Element? && n.style == BackgroundStyle(props[BackgroundColorKey]))
      && (Truthy(Lookup(props, BackgroundColorKey)) && Truthy(Lookup(props, ContainerMaxWidthKey)) ==>
            n.Element? && |n.children| == 1 && n.children[0].Element?
            && n.children[0].style == ContainerStyle(props[ContainerMaxWidthKey]))
  {
    var rest := props - {BackgroundColorKey};
    var innerProps := props - {BackgroundColorKey, ContainerMaxWidthKey};
    assert BackgroundColorKey != ContainerMaxWidthKey by { assert BackgroundColorKey[0] != ContainerMaxWidthKey[0]; }
    assert rest - {ContainerMaxWidthKey} == innerProps;
    assert Lookup(rest, ContainerMaxWidthKey) == Lookup(props, ContainerMaxWidthKey);
    var inside := Render(WithContainer(Base(name)), rest);
    var inner := Instance(name, innerProps);
    assert Render(Base(name), rest - {ContainerMaxWidthKey}) == inner;
    if Truthy(Lookup(props, ContainerMaxWidthKey)) {
      assert inside == Element("div", ContainerStyle(props[ContainerMaxWidthKey]), [inner]);
      assert WrapperDepth(inside) == 1 && Peel(inside, 1) == inner;
    } else {
      assert inside == inner;
    }
  }

  // ---------------------------------------------------------------------------
  // Shared field injection
  // ---------------------------------------------------------------------------

  datatype SelectOption = SelectOption(caption: string, value: string)

  /** A sidebar field definition. */
  datatype FieldDef =
    | Select(options: seq<SelectOption>)
    | Custom(widget: string)
    | Plain(kind: string)

  /** `containerMaxWidthField`: the global default plus five widths. */
  const ContainerMaxWidthField := Select([
    SelectOption("Global default", ""),
    SelectOption("960px", "960px"),
    SelectOption("1280px", "1280px"),
    SelectOption("1440px", "1440px"),
    SelectOption("1600px", "1600px"),
    SelectOption("Full width", "100%")])

  /** `backgroundColorField`: a colour picker beside a text input. */
  const BackgroundColorField := Custom("color")

  const SharedFields: map<string, FieldDef> :=
    map[BackgroundColorKey := BackgroundColorField, ContainerMaxWidthKey := ContainerMaxWidthField]

  const SharedDefaults: Props :=
    map[BackgroundColorKey := Str(""), ContainerMaxWidthKey := Str("")]

  datatype Component = Component(fields: map<string, FieldDef>, defaultProps: Props, render: Renderer)

  /**
   * `m` is `{ ...shared, ...own }`: it has the keys of both, every entry of
   * `own` is kept as is, and a shared entry shows only where `own` has none.
   */
  predicate SpreadOver<V(==)>(m: map<string, V>, shared: map<string, V>, own: map<string, V>) {
    && m.Keys == shared.Keys + own.Keys
    && (forall k :: k in own ==> k in m && m[k] == own[k])
    && (forall k :: k in shared && k !in own ==> k in m && m[k] == shared[k])
  }

  /**
   * A component after injection: shared entries first, its own spread over
   * them. It has both shared fields and both shared defaults (`""`); its own
   * definitions and defaults are all kept and win over the shared ones, and
   * nothing else is added.
   */
  function Inject(c: Component): (r: Component)
    ensures SpreadOver(r.fields, SharedFields, c.fields)
    ensures BackgroundColorKey in r.fields && ContainerMaxWidthKey in r.fields
    ensures BackgroundColorKey !in c.fields ==> r.fields[BackgroundColorKey] == BackgroundColorField
    ensures ContainerMaxWidthKey !in c.fields ==> r.fields[ContainerMaxWidthKey] == ContainerMaxWidthField
    ensures SpreadOver(r.defaultProps, SharedDefaults, c.defaultProps)
    ensures BackgroundColorKey in r.defaultProps && ContainerMaxWidthKey in r.defaultProps
    ensures BackgroundColorKey !in c.defaultProps ==> r.defaultProps[BackgroundColorKey] == Str("")
    ensures ContainerMaxWidthKey !in c.defaultProps ==> r.defaultProps[ContainerMaxWidthKey] == Str("")
    ensures BaseComponent(r.render) == BaseComponent(c.render) && Layers(r.render) == Layers(c.render) + 2
    ensures TakenKeys(r.render) == TakenKeys(c.render) + {BackgroundColorKey, ContainerMaxWidthKey}
  {
    Component(SharedFields + c.fields, SharedDefaults + c.defaultProps,
              WithBackgroundColor(WithContainer(c.render)))
  }

  /** With the injected defaults a component renders with no wrapper at all. */
  lemma DefaultsAddNoWrapper(name: string, own: Props)
    requires BackgroundColorKey !in own && ContainerMaxWidthKey !in own
    ensures var props := SharedDefaults + own;
      Render(WithBackgroundColor(WithContainer(Base(name))), props) == Instance(name, own)
  {
    var props := SharedDefaults + own;
    var rest := props - {BackgroundColorKey};
    assert BackgroundColorKey != ContainerMaxWidthKey by { assert BackgroundColorKey[0] != ContainerMaxWidthKey[0]; }
    assert Lookup(props, BackgroundColorKey) == Some(Str(""));
    assert Lookup(rest, ContainerMaxWidthKey) == Some(Str(""));
    assert rest - {ContainerMaxWidthKey} == own;
    assert Render(Base(name), own) == Instance(name, own);
    assert Render(WithContainer(Base(name)), rest) == Instance(name, own);
  }

  /** The configuration's component table, rewritten in place by the injection loop. */
  class Config {
    var components: map<string, Component>

    constructor (components: map<string, Component>)
      ensures this.components == components
    {
      this.components := components;
    }

    /**
     * The loop over `Object.keys(components)`: every component's fields,
     * defaults and render are replaced by their injected versions.
     */
    method InjectSharedFields()
      modifies this
      ensures components.Keys == old(components).Keys
      ensures forall k :: k in components ==> components[k] == Inject(old(components)[k])
    {
      var keys := components.Keys;
      ghost var done: set<string> := {};
      while keys != {}
        invariant keys !! done && keys + done == old(components).Keys
        invariant components.Keys == old(components).Keys
        invariant forall k :: k in done ==> components[k] == Inject(old(components)[k])
        invariant forall k :: k in keys ==> components[k] == old(components)[k]
        decreases keys
      {
        var key :| key in keys;
        var comp := components[key];
        comp := comp.(fields := SharedFields + comp.fields);
        comp := comp.(defaultProps := SharedDefaults + comp.defaultProps);
        comp := comp.(render := WithBackgroundColor(WithContainer(comp.render)));
        assert comp == Inject(old(components)[key]);
        components := components[key := comp];
        keys := keys - {key};
        done := done + {key};
      }
    }
  }
}
