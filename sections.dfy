/**
 * The page's content sections, abstracted to a map from element id to whether
 * the section carries the `active` class (is shown).
 */
module Sections {

  /** The ids of the sections currently shown. */
  function ActiveIds(sections: map<string, bool>): (ids: set<string>)
    ensures forall id :: id in ids <==> id in sections && sections[id]
  {
    set id | id in sections && sections[id]
  }

  /** `openSection(id)`: every section is closed, then `id` is opened if the page
      has a section with that id. */
  function Opened(sections: map<string, bool>, id: string): (r: map<string, bool>)
    ensures r.Keys == sections.Keys
    ensures forall k :: k in r ==> (r[k] <==> k == id)
  {
    map k | k in sections :: k == id
  }

  /** After opening, exactly the requested section is shown when it exists, and
      none is shown when it does not. */
  lemma OpenedShowsOnlyId(sections: map<string, bool>, id: string)
    ensures ActiveIds(Opened(sections, id)) == if id in sections then {id} else {}
  {
    var r := Opened(sections, id);
    if id in sections {
      assert id in ActiveIds(r);
    }
  }

  /** At most one section is shown after an open, whatever was shown before. */
  lemma OpenedAtMostOne(sections: map<string, bool>, id: string)
    ensures |ActiveIds(Opened(sections, id))| <= 1
  {
    OpenedShowsOnlyId(sections, id);
  }

  /** What was shown before an open does not matter, only which sections exist. */
  lemma OpenedForgetsPrevious(a: map<string, bool>, b: map<string, bool>, id: string)
    requires a.Keys == b.Keys
    ensures Opened(a, id) == Opened(b, id)
  {
  }

  /** Opening the same section twice is the same as opening it once. */
  lemma OpenedIdempotent(sections: map<string, bool>, id: string)
    ensures Opened(Opened(sections, id), id) == Opened(sections, id)
  {
  }
}
