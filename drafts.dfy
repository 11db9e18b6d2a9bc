/**
 * The draft overlay of the dashboard (AdminDashboard.js): `editData` holds
 * a private copy of each content section the operator has started to edit,
 * `editTheme` a private copy of the theme. Reads and saves take the draft
 * when there is one and the synchronised value otherwise; an edit starts
 * the draft from a copy of the synchronised section and writes one path of
 * it.
 */
module Drafts {
  import opened Outcomes
  import opened Text
  import opened ContentTree

  /** Sections by name, as the content context and `editData` hold them. */
  type Sections = map<string, Value>

  /** `editData[section] || content[section]`: None stands for `undefined`. */
  function DraftOrSynced(drafts: Sections, synced: Sections, section: string): Option<Value> {
    if section in drafts && Truthy(drafts[section]) then Some(drafts[section])
    else if section in synced then Some(synced[section])
    else None
  }

  /**
   * The drafts after handleInputChange(path, x) on `section`, or None when
   * the handler throws (no section to copy, or a path the tree cannot
   * take). The copy `JSON.parse(JSON.stringify(...))` is the value itself.
   */
  function EditSection(drafts: Sections, synced: Sections, section: string, path: string, x: Value): Option<Sections> {
    match DraftOrSynced(drafts, synced, section)
    case None => None
    case Some(base) =>
      match SetPath(base, Split(path, '.'), x)
      case None => None
      case Some(edited) => Some(drafts[section := edited])
  }

  /** The drafts once handleInputChange has run: the edited drafts, or the old ones when it threw. */
  function ApplyEdit(drafts: Sections, synced: Sections, section: string, path: string, x: Value): Sections {
    match EditSection(drafts, synced, section, path, x)
    case Some(after) => after
    case None => drafts
  }

  /** After an edit, reading the section through the overlay finds the new value at the path. */
  lemma EditSectionWrites(drafts: Sections, synced: Sections, section: string, path: string, x: Value)
    requires EditSection(drafts, synced, section, path, x).Some?
    ensures var after := EditSection(drafts, synced, section, path, x).value;
            && DraftOrSynced(after, synced, section).Some?
            && Walk(DraftOrSynced(after, synced, section).value, Split(path, '.')) == Some(x)
  {
    var base := DraftOrSynced(drafts, synced, section).value;
    SetPathThenWalk(base, Split(path, '.'), x);
  }

  /**
   * An edit touches nothing but the one path of the one draft: every other
   * section's draft is as it was, and every path leading away from the
   * edited one reads as it did before the edit.
   */
  lemma EditSectionFrame(drafts: Sections, synced: Sections, section: string, path: string, x: Value, ps: seq<string>)
    requires EditSection(drafts, synced, section, path, x).Some?
    ensures var after := EditSection(drafts, synced, section, path, x).value;
            && after.Keys == drafts.Keys + {section}
            && (forall s :: s in drafts && s != section ==> after[s] == drafts[s])
    ensures var base := DraftOrSynced(drafts, synced, section).value;
            var after := EditSection(drafts, synced, section, path, x).value;
            Apart(base, ps, Split(path, '.')) ==> Walk(after[section], ps) == Walk(base, ps)
  {
    var base := DraftOrSynced(drafts, synced, section).value;
    if Apart(base, ps, Split(path, '.')) {
      SetPathFrame(base, Split(path, '.'), x, ps);
    }
  }

  /**
   * On a section that is an object, storing a value under one plain field
   * name (as Add New Question and Delete Question store the new list under
   * `questions`) always goes through: afterwards the section read through
   * the drafts holds exactly that value there, and every other field of
   * the section reads as before.
   */
  lemma FieldEditLands(drafts: Sections, synced: Sections, section: string, key: string, x: Value, other: string)
    requires DraftOrSynced(drafts, synced, section).Some? && DraftOrSynced(drafts, synced, section).value.Obj?
    requires '.' !in key && other != key
    ensures EditSection(drafts, synced, section, key, x).Some?
    ensures var after := ApplyEdit(drafts, synced, section, key, x);
            && DraftOrSynced(after, synced, section).Some?
            && Walk(DraftOrSynced(after, synced, section).value, [key]) == Some(x)
            && Walk(DraftOrSynced(after, synced, section).value, [other])
                 == Walk(DraftOrSynced(drafts, synced, section).value, [other])
  {
    var base := DraftOrSynced(drafts, synced, section).value;
    NoSeparatorSplit(key, '.');
    FieldWriteWalk(base.fields, key, x, other);
    var edited := Obj(base.fields[key := x]);
    assert EditSection(drafts, synced, section, key, x) == Some(drafts[section := edited]);
  }

  /**
   * With no draft yet, the first edit starts from the synchronised section;
   * with no such section either, the handler throws and nothing changes.
   */
  lemma FirstEditCopiesSynced(drafts: Sections, synced: Sections, section: string, path: string, x: Value)
    requires !(section in drafts && Truthy(drafts[section]))
    ensures section !in synced ==> EditSection(drafts, synced, section, path, x) == None
    ensures section in synced ==>
              EditSection(drafts, synced, section, path, x) ==
                (match SetPath(synced[section], Split(path, '.'), x)
                 case None => None
                 case Some(edited) => Some(drafts[section := edited]))
  {
  }

  /** Once the drafts are cleared, every read falls through to the synchronised content. */
  lemma ClearedDraftsReadSynced(synced: Sections, section: string)
    ensures DraftOrSynced(map[], synced, section) == if section in synced then Some(synced[section]) else None
  {
  }

  /** `editTheme || theme`. */
  function ThemeOrDraft(draft: Option<Sections>, theme: Sections): Sections {
    if draft.Some? then draft.value else theme
  }

  /** The fields `{...v}` copies: those of an object, none for a missing or scalar value. */
  function SpreadFields(v: Option<Value>): Sections {
    if v.Some? && v.value.Obj? then v.value.fields else map[]
  }

  /** `{...theme, colors: {...theme.colors, [key]: color}}`. */
  function WithColor(theme: Sections, key: string, color: string): Sections {
    theme["colors" := Obj(SpreadFields(if "colors" in theme then Some(theme["colors"]) else None)[key := Str(color)])]
  }

  /** `{...theme, [field]: text}`, for fontFamily and fontWeight. */
  function WithText(theme: Sections, field: string, text: string): Sections {
    theme[field := Str(text)]
  }

  /**
   * A colour edit sets that one colour: the other colours and the other
   * theme settings are kept.
   */
  lemma WithColorSetsOneColor(theme: Sections, key: string, color: string)
    ensures var t := WithColor(theme, key, color);
            && Walk(Obj(t), ["colors", key]) == Some(Str(color))
            && (forall f :: f in theme && f != "colors" ==> f in t && t[f] == theme[f])
            && t.Keys == theme.Keys + {"colors"}
    ensures "colors" in theme && theme["colors"].Obj? ==>
              forall k :: k in theme["colors"].fields && k != key ==>
                Walk(Obj(WithColor(theme, key, color)), ["colors", k]) == Walk(Obj(theme), ["colors", k])
  {
    var t := WithColor(theme, key, color);
    var colors := t["colors"];
    assert ["colors", key][1..] == [key];
    assert Walk(Str(color), []) == Some(Str(color));
    assert Walk(colors, [key]) == Some(Str(color));
    if "colors" in theme && theme["colors"].Obj? {
      forall k | k in theme["colors"].fields && k != key
        ensures Walk(Obj(t), ["colors", k]) == Walk(Obj(theme), ["colors", k])
      {
        assert ["colors", k][1..] == [k];
        var c := theme["colors"].fields[k];
        assert Walk(c, []) == Some(c);
      }
    }
  }
}
