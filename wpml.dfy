/**
 * The `WPML` widget trait: the entry a widget adds to WPML's list of
 * Elementor widgets to translate.
 */
module Wpml {
  import opened Wrappers
  import opened PhpValues

  /** `wpml_get_translatable_fields()` and `wpml_get_integration_class_name()` as the trait defines them. */
  const DefaultTranslatableFields := PArr([])
  const DefaultIntegrationClass := PNull

  /** The entry for the widget named `name`. */
  function WpmlEntry(name: string, fields: PhpVal, integrationClass: PhpVal): PhpVal {
    PArr([Pair(StrKey("conditions"), PArr([Pair(StrKey("widgetType"), PStr(name))])),
          Pair(StrKey("fields"), fields),
          Pair(StrKey("integration-class"), integrationClass)])
  }

  /**
   * `filter_wpml_widgets_to_translate($widgets)` for a widget whose
   * `get_name()` is `name` and whose two getters return `fields` and
   * `integrationClass`.
   */
  function FilterWidgetsToTranslate(widgets: seq<Pair>, name: string, fields: PhpVal, integrationClass: PhpVal): seq<Pair> {
    Assign(widgets, StringKey(name), WpmlEntry(name, fields, integrationClass))
  }

  /**
   * The widget's name now maps to its entry, which holds the name as
   * `widgetType`, the fields and the integration class; every other widget
   * keeps its entry, a widget new to the list goes last, and a well-formed
   * list stays well-formed.
   */
  lemma FilterWidgetsToTranslateEntry(widgets: seq<Pair>, name: string, fields: PhpVal, integrationClass: PhpVal)
    ensures var r := FilterWidgetsToTranslate(widgets, name, fields, integrationClass);
      Lookup(r, StringKey(name)) == Some(WpmlEntry(name, fields, integrationClass)) &&
      (forall k :: k != StringKey(name) ==> Lookup(r, k) == Lookup(widgets, k)) &&
      (!KeyExists(widgets, StringKey(name)) ==> r == widgets + [Pair(StringKey(name), WpmlEntry(name, fields, integrationClass))]) &&
      (KeyExists(widgets, StringKey(name)) ==> KeysOf(r) == KeysOf(widgets)) &&
      (WellFormed(widgets) ==> WellFormed(r))
    ensures var e := WpmlEntry(name, fields, integrationClass).entries;
      Lookup(e, StrKey("fields")) == Some(fields) &&
      Lookup(e, StrKey("integration-class")) == Some(integrationClass) &&
      Lookup(e, StrKey("conditions")) == Some(PArr([Pair(StrKey("widgetType"), PStr(name))]))
  {
    var e := WpmlEntry(name, fields, integrationClass).entries;
    assert "conditions"[0] != "fields"[0] && "conditions"[0] != "integration-class"[0] && "fields"[0] != "integration-class"[0];
    assert e[0].key != StrKey("fields") && e[1].key == StrKey("fields");
    assert e[0].key != StrKey("integration-class") && e[1].key != StrKey("integration-class");
    assert Position(e, StrKey("conditions")) == Some(0);
    assert Position(e, StrKey("fields")) == Some(1);
    assert e[2].key == StrKey("integration-class");
    assert Position(e, StrKey("integration-class")) == Some(2);
  }

  /** Running the filter twice, with the same getters, gives the list of running it once. */
  lemma FilterWidgetsToTranslateIdempotent(widgets: seq<Pair>, name: string, fields: PhpVal, integrationClass: PhpVal)
    ensures FilterWidgetsToTranslate(FilterWidgetsToTranslate(widgets, name, fields, integrationClass), name, fields, integrationClass)
      == FilterWidgetsToTranslate(widgets, name, fields, integrationClass)
  {
    AssignIdempotent(widgets, StringKey(name), WpmlEntry(name, fields, integrationClass));
  }

  /** With the trait's own getters the entry lists no fields and no integration class. */
  lemma DefaultWpmlEntry(name: string)
    ensures WpmlEntry(name, DefaultTranslatableFields, DefaultIntegrationClass).entries[1] == Pair(StrKey("fields"), PArr([]))
    ensures !IsSetOn(WpmlEntry(name, DefaultTranslatableFields, DefaultIntegrationClass), "integration-class")
  {
    var e := WpmlEntry(name, DefaultTranslatableFields, DefaultIntegrationClass).entries;
    assert "conditions"[0] != "integration-class"[0] && "fields"[0] != "integration-class"[0];
    assert e[0].key != StrKey("integration-class") && e[1].key != StrKey("integration-class");
    assert e[2].key == StrKey("integration-class");
    assert Position(e, StrKey("integration-class")) == Some(2);
  }
}
