/**
 From optional objects back to Widgets: the field indexes, and the mappers that turn an object
 event or a CRD change into reconcile requests.
 */
module Mappers {
  import opened Common
  import opened Widgets

  /** What an index function is handed; only Widgets have index keys. */
  datatype Object = WidgetItem(widget: Widget) | SomethingElse

  datatype Field = RefField(half: Half) | HasRefField(half: Half)

  /** The index functions passed inline by SetupWithManager. */
  function InlineExtract(field: Field, obj: Object): seq<string> {
    match field
    case RefField(h) =>
      if !obj.WidgetItem? || Ref(h, obj.widget.spec) == "" then [] else [Ref(h, obj.widget.spec)]
    case HasRefField(h) =>
      if !obj.WidgetItem? || Ref(h, obj.widget.spec) == "" then [] else ["true"]
  }

  /** The extract functions of the table in setupFieldIndexes. */
  function TableEntry(field: Field): Widget -> seq<string> {
    match field
    case RefField(Plugin) => (w: Widget) => if w.spec.pluginRef == "" then [] else [w.spec.pluginRef]
    case RefField(Theme) => (w: Widget) => if w.spec.themeRef == "" then [] else [w.spec.themeRef]
    case HasRefField(Plugin) => (w: Widget) => if w.spec.pluginRef == "" then [] else ["true"]
    case HasRefField(Theme) => (w: Widget) => if w.spec.themeRef == "" then [] else ["true"]
  }

  /** The function setupFieldIndexes registers: the entry behind a type check. */
  function TableExtract(field: Field, obj: Object): seq<string> {
    if obj.WidgetItem? then TableEntry(field)(obj.widget) else []
  }

  /** Both setups index the same keys, for every object and every field. */
  lemma BothSetupsIndexTheSame(field: Field, obj: Object)
    ensures InlineExtract(field, obj) == TableExtract(field, obj)
  {
  }

  /** A List with MatchingFields: the Widgets, in all namespaces, that carry `value` in this index. */
  function Matching(widgets: seq<Widget>, field: Field, value: string): seq<Widget> {
    if widgets == [] then []
    else (if value in InlineExtract(field, WidgetItem(widgets[0])) then [widgets[0]] else [])
         + Matching(widgets[1..], field, value)
  }

  /** The plain scan: the keys of all Widgets with property `p`. */
  function Scan(widgets: seq<Widget>, p: Widget -> bool): seq<Key> {
    if widgets == [] then []
    else (if p(widgets[0]) then [widgets[0].key] else []) + Scan(widgets[1..], p)
  }

  function KeysOf(widgets: seq<Widget>): seq<Key> {
    seq(|widgets|, i requires 0 <= i < |widgets| => widgets[i].key)
  }

  predicate HasRef(h: Half, w: Widget) {
    Ref(h, w.spec) != ""
  }

  /** The parents of the optional type. */
  function WithRef(h: Half): Widget -> bool {
    (w: Widget) => HasRef(h, w)
  }

  /** The Widgets, in any namespace, whose reference is `name`. */
  function Naming(h: Half, name: string): Widget -> bool {
    (w: Widget) => HasRef(h, w) && Ref(h, w.spec) == name
  }

  /** The index-driven list of the has-ref index is the plain scan for Widgets with a reference. */
  lemma {:induction false} HasRefIndexIsScan(widgets: seq<Widget>, h: Half)
    ensures KeysOf(Matching(widgets, HasRefField(h), "true")) == Scan(widgets, WithRef(h))
  {
    if widgets != [] {
      HasRefIndexIsScan(widgets[1..], h);
      KeysOfPart(if HasRef(h, widgets[0]) then [widgets[0]] else [], Matching(widgets[1..], HasRefField(h), "true"));
    }
  }

  /** The index-driven list of the ref index is the plain scan for Widgets that name the object. */
  lemma {:induction false} RefIndexIsScan(widgets: seq<Widget>, h: Half, name: string)
    ensures KeysOf(Matching(widgets, RefField(h), name)) == Scan(widgets, Naming(h, name))
  {
    if widgets != [] {
      RefIndexIsScan(widgets[1..], h, name);
      KeysOfPart(if Naming(h, name)(widgets[0]) then [widgets[0]] else [], Matching(widgets[1..], RefField(h), name));
    }
  }

  lemma KeysOfPart(a: seq<Widget>, b: seq<Widget>)
    ensures KeysOf(a + b) == KeysOf(a) + KeysOf(b)
  {
  }

  lemma {:induction false} ScanFinds(widgets: seq<Widget>, p: Widget -> bool, key: Key)
    ensures key in Scan(widgets, p) <==> exists w :: w in widgets && p(w) && w.key == key
  {
    if widgets != [] {
      ScanFinds(widgets[1..], p, key);
      if w :| w in widgets && p(w) && w.key == key {
        assert w == widgets[0] || w in widgets[1..];
      }
    }
  }

  /** pluginConfigToWidgets and themeToWidgets. */
  method ObjectToWidgets(h: Half, widgets: seq<Widget>, object_: Key, listOk: bool) returns (requests: seq<Key>)
    ensures requests == if listOk then Scan(widgets, Naming(h, object_.name)) else []
  {
    if !listOk {
      return [];
    }
    var items := Matching(widgets, RefField(h), object_.name);
    RefIndexIsScan(widgets, h, object_.name);
    requests := Requests(items);
  }

  /** allWidgetsWithPluginRef and allWidgetsWithThemeRef. */
  method AllWidgetsWithRef(h: Half, widgets: seq<Widget>, listOk: bool) returns (requests: seq<Key>)
    ensures requests == if listOk then Scan(widgets, WithRef(h)) else []
  {
    if !listOk {
      return [];
    }
    var items := Matching(widgets, HasRefField(h), "true");
    HasRefIndexIsScan(widgets, h);
    requests := Requests(items);
  }

  method Requests(items: seq<Widget>) returns (requests: seq<Key>)
    ensures requests == KeysOf(items)
  {
    requests := [];
    for i := 0 to |items|
      invariant requests == KeysOf(items[..i])
    {
      requests := requests + [items[i].key];
      assert items[..i + 1] == items[..i] + [items[i]];
    }
    assert items[..|items|] == items;
  }

  /**
   Completeness: a Widget whose Reconcile would read the object, which is the one of the Widget's
   own namespace that its reference names, is among the requests for an event of that object, and
   among those for a change of the CRD.
   */
  lemma MappersAreComplete(h: Half, widgets: seq<Widget>, w: Widget, object_: Key)
    requires w in widgets && Ref(h, w.spec) != ""
    requires object_.namespace == w.key.namespace && object_.name == Ref(h, w.spec)
    ensures w.key in KeysOf(Matching(widgets, RefField(h), object_.name))
    ensures w.key in KeysOf(Matching(widgets, HasRefField(h), "true"))
  {
    RefIndexIsScan(widgets, h, object_.name);
    HasRefIndexIsScan(widgets, h);
    ScanFinds(widgets, Naming(h, object_.name), w.key);
    ScanFinds(widgets, WithRef(h), w.key);
  }

  /** And what they return beyond that: only Widgets that name the object from another namespace. */
  lemma MappersAreExact(h: Half, widgets: seq<Widget>, key: Key, object_: Key)
    requires forall a, b :: a in widgets && b in widgets && a.key == b.key ==> a == b
    ensures key in KeysOf(Matching(widgets, RefField(h), object_.name)) <==>
            exists w :: w in widgets && w.key == key && Ref(h, w.spec) != ""
                        && (object_ == Key(w.key.namespace, Ref(h, w.spec)) ||
                            (Ref(h, w.spec) == object_.name && w.key.namespace != object_.namespace))
    ensures key in KeysOf(Matching(widgets, HasRefField(h), "true")) <==>
            exists w :: w in widgets && w.key == key && Ref(h, w.spec) != ""
  {
    RefIndexIsScan(widgets, h, object_.name);
    HasRefIndexIsScan(widgets, h);
    ScanFinds(widgets, Naming(h, object_.name), key);
    ScanFinds(widgets, WithRef(h), key);
  }
}
