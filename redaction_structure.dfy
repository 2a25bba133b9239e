/**
 * The structure walkers of app/core/redaction.py: `redact_in_structure`
 * and `redact_dict_keys`, with the strict flag already decided (it is the
 * same for every string of one walk), and the facts the response middleware
 * relies on: shapes and keys survive, and every string that comes out is the
 * redaction of a string that went in.
 */
module RedactionStructure {
  import opened Common
  import opened Values
  import opened Redaction

  /** The entries of a dictionary, or the `.dict()` of a model object. */
  function Fields(v: Value): map<string, Value>
    requires v.Dict? || v.Record?
  {
    if v.Dict? then v.entries else v.fields
  }

  /**
   * `redact_in_structure`: every string is redacted, containers are walked,
   * dictionaries keep their keys and the values under a skipped key
   * untouched, and a model object is walked as its `.dict()`.
   */
  function RedactInStructure(v: Value, skip: set<string>, strict: bool): (r: Value)
    ensures v.Str? ==> r == Str(RedactedText(v.s, strict))
    ensures v.List? ==> r.List? && |r.items| == |v.items|
    ensures v.Tuple? ==> r.Tuple? && |r.items| == |v.items|
    ensures v.SetOf? ==> r.SetOf?
    ensures v.Dict? || v.Record? ==>
              && r.Dict? && r.entries.Keys == Fields(v).Keys
              && forall k :: k in skip && k in Fields(v) ==> r.entries[k] == Fields(v)[k]
    ensures !v.Str? && !v.List? && !v.Tuple? && !v.SetOf? && !v.Dict? && !v.Record? ==> r == v
    decreases v
  {
    match v
    case Str(s) => Str(RedactedText(s, strict))
    case List(items) => List(seq(|items|, i requires 0 <= i < |items| => RedactInStructure(items[i], skip, strict)))
    case Tuple(items) => Tuple(seq(|items|, i requires 0 <= i < |items| => RedactInStructure(items[i], skip, strict)))
    case SetOf(elems) => SetOf(set x | x in elems :: RedactInStructure(x, skip, strict))
    case Dict(entries) =>
      Dict(map k | k in entries :: if k in skip then entries[k] else RedactInStructure(entries[k], skip, strict))
    case Record(fields) =>
      Dict(map k | k in fields :: if k in skip then fields[k] else RedactInStructure(fields[k], skip, strict))
    case _ => v
  }

  /**
   * `redact_dict_keys`: the values under a sensitive key are walked with
   * `redact_in_structure`, nested dictionaries under other keys are searched
   * the same way, and everything else is kept.
   */
  function RedactDictKeys(m: map<string, Value>, keys: set<string>, skip: set<string>, strict: bool)
    : (r: map<string, Value>)
    ensures r.Keys == m.Keys
    ensures forall k :: k in m && k in skip ==> r[k] == m[k]
    ensures forall k :: k in m && k !in skip && k !in keys && !m[k].Dict? ==> r[k] == m[k]
    decreases Dict(m)
  {
    map k | k in m ::
      if k in skip then m[k]
      else if k in keys then RedactInStructure(m[k], skip, strict)
      else if m[k].Dict? then Dict(RedactDictKeys(m[k].entries, keys, skip, strict))
      else m[k]
  }

  // ------------------------------------------------------------- shapes

  /** A value with its text forgotten: every string is empty, and a model
      object is the dictionary it turns into. */
  function Erase(v: Value): Value
    decreases v
  {
    match v
    case Str(_) => Str([])
    case List(items) => List(seq(|items|, i requires 0 <= i < |items| => Erase(items[i])))
    case Tuple(items) => Tuple(seq(|items|, i requires 0 <= i < |items| => Erase(items[i])))
    case SetOf(elems) => SetOf(set x | x in elems :: Erase(x))
    case Dict(entries) => Dict(map k | k in entries :: Erase(entries[k]))
    case Record(fields) => Dict(map k | k in fields :: Erase(fields[k]))
    case _ => v
  }

  /** Redaction changes text and nothing else: every container keeps its
      kind, length and keys, and every other scalar stays as it was. */
  lemma {:induction false} RedactKeepsShape(v: Value, skip: set<string>, strict: bool)
    ensures Erase(RedactInStructure(v, skip, strict)) == Erase(v)
    decreases v, 1
  {
    if v.List? || v.Tuple? {
      ItemsKeepShape(v, skip, strict);
    } else if v.SetOf? {
      ElemsKeepShape(v, skip, strict);
    } else if v.Dict? || v.Record? {
      EntriesKeepShape(v, skip, strict);
    }
  }

  lemma {:induction false} ItemsKeepShape(v: Value, skip: set<string>, strict: bool)
    requires v.List? || v.Tuple?
    ensures Erase(RedactInStructure(v, skip, strict)) == Erase(v)
    decreases v, 0
  {
    var out := RedactInStructure(v, skip, strict).items;
    forall i | 0 <= i < |v.items| ensures Erase(out[i]) == Erase(v.items[i]) {
      RedactKeepsShape(v.items[i], skip, strict);
    }
    assert Erase(RedactInStructure(v, skip, strict)).items == Erase(v).items;
  }

  lemma {:induction false} ElemsKeepShape(v: Value, skip: set<string>, strict: bool)
    requires v.SetOf?
    ensures Erase(RedactInStructure(v, skip, strict)) == Erase(v)
    decreases v, 0
  {
    var out := set x | x in v.elems :: RedactInStructure(x, skip, strict);
    assert RedactInStructure(v, skip, strict) == SetOf(out);
    var a := set y | y in out :: Erase(y);
    var b := set x | x in v.elems :: Erase(x);
    forall e | e in a ensures e in b {
      var y :| y in out && e == Erase(y);
      var x :| x in v.elems && y == RedactInStructure(x, skip, strict);
      RedactKeepsShape(x, skip, strict);
    }
    forall e | e in b ensures e in a {
      var x :| x in v.elems && e == Erase(x);
      RedactKeepsShape(x, skip, strict);
      assert RedactInStructure(x, skip, strict) in out;
    }
    assert a == b;
  }

  lemma {:induction false} EntriesKeepShape(v: Value, skip: set<string>, strict: bool)
    requires v.Dict? || v.Record?
    ensures Erase(RedactInStructure(v, skip, strict)) == Erase(v)
    decreases v, 0
  {
    var m := Fields(v);
    var out := RedactInStructure(v, skip, strict).entries;
    forall k | k in m ensures Erase(out[k]) == Erase(m[k]) {
      RedactedEntry(v, skip, strict, k);
      if k !in skip {
        RedactKeepsShape(m[k], skip, strict);
      }
    }
    ErasedEntries(m, out);
  }

  /** The walk of a dictionary or model object, one key at a time. */
  lemma RedactedEntry(v: Value, skip: set<string>, strict: bool, k: string)
    requires (v.Dict? || v.Record?) && k in Fields(v)
    ensures RedactInStructure(v, skip, strict).entries[k]
            == if k in skip then Fields(v)[k] else RedactInStructure(Fields(v)[k], skip, strict)
  {
  }

  /** Two dictionaries with the same keys whose values erase alike erase
      alike. */
  lemma ErasedEntries(m: map<string, Value>, out: map<string, Value>)
    requires out.Keys == m.Keys && forall k :: k in m ==> Erase(out[k]) == Erase(m[k])
    ensures Erase(Dict(out)) == Erase(Dict(m)) == Erase(Record(m))
  {
    assert Erase(Dict(out)).entries == Erase(Dict(m)).entries;
  }

  // -------------------------------------------------------------- texts

  /** Every string inside a value (dictionary keys are not walked). */
  function Texts(v: Value): set<string>
    decreases v
  {
    match v
    case Str(s) => {s}
    case List(items) => set i, t | 0 <= i < |items| && t in Texts(items[i]) :: t
    case Tuple(items) => set i, t | 0 <= i < |items| && t in Texts(items[i]) :: t
    case SetOf(elems) => set x, t | x in elems && t in Texts(x) :: t
    case Dict(entries) => set k, t | k in entries && t in Texts(entries[k]) :: t
    case Record(fields) => set k, t | k in fields && t in Texts(fields[k]) :: t
    case _ => {}
  }

  /** t is what `redact_text` makes of some string inside v. */
  ghost predicate RedactedFrom(t: string, v: Value, strict: bool)
  {
    exists u :: u in Texts(v) && t == RedactedText(u, strict)
  }

  /** Every string the walk returns is the redaction of a string of the
      input, or, under a skipped key, a string of the input kept as it was.
      With no skipped keys, no string escapes redaction. */
  lemma {:induction false} TextsRedacted(v: Value, skip: set<string>, strict: bool)
    ensures forall t :: t in Texts(RedactInStructure(v, skip, strict)) ==>
              RedactedFrom(t, v, strict) || (skip != {} && t in Texts(v))
    decreases v, 1
  {
    if v.List? || v.Tuple? {
      ItemTextsRedacted(v, skip, strict);
    } else if v.SetOf? {
      ElemTextsRedacted(v, skip, strict);
    } else if v.Dict? || v.Record? {
      EntryTextsRedacted(v, skip, strict);
    }
  }

  lemma {:induction false} ItemTextsRedacted(v: Value, skip: set<string>, strict: bool)
    requires v.List? || v.Tuple?
    ensures forall t :: t in Texts(RedactInStructure(v, skip, strict)) ==>
              RedactedFrom(t, v, strict) || (skip != {} && t in Texts(v))
    decreases v, 0
  {
    var out := RedactInStructure(v, skip, strict).items;
    forall t | t in Texts(RedactInStructure(v, skip, strict))
      ensures RedactedFrom(t, v, strict) || (skip != {} && t in Texts(v))
    {
      var i :| 0 <= i < |out| && t in Texts(out[i]);
      TextsRedacted(v.items[i], skip, strict);
      if RedactedFrom(t, v.items[i], strict) {
        var u :| u in Texts(v.items[i]) && t == RedactedText(u, strict);
        assert u in Texts(v);
      } else {
        assert t in Texts(v);
      }
    }
  }

  lemma {:induction false} ElemTextsRedacted(v: Value, skip: set<string>, strict: bool)
    requires v.SetOf?
    ensures forall t :: t in Texts(RedactInStructure(v, skip, strict)) ==>
              RedactedFrom(t, v, strict) || (skip != {} && t in Texts(v))
    decreases v, 0
  {
    var out := RedactInStructure(v, skip, strict).elems;
    forall t | t in Texts(RedactInStructure(v, skip, strict))
      ensures RedactedFrom(t, v, strict) || (skip != {} && t in Texts(v))
    {
      var y :| y in out && t in Texts(y);
      var x :| x in v.elems && y == RedactInStructure(x, skip, strict);
      TextsRedacted(x, skip, strict);
      if RedactedFrom(t, x, strict) {
        var u :| u in Texts(x) && t == RedactedText(u, strict);
        assert u in Texts(v);
      } else {
        assert t in Texts(v);
      }
    }
  }

  lemma {:induction false} EntryTextsRedacted(v: Value, skip: set<string>, strict: bool)
    requires v.Dict? || v.Record?
    ensures forall t :: t in Texts(RedactInStructure(v, skip, strict)) ==>
              RedactedFrom(t, v, strict) || (skip != {} && t in Texts(v))
    decreases v, 0
  {
    var m := Fields(v);
    var out := RedactInStructure(v, skip, strict).entries;
    forall t | t in Texts(RedactInStructure(v, skip, strict))
      ensures RedactedFrom(t, v, strict) || (skip != {} && t in Texts(v))
    {
      var k :| k in out && t in Texts(out[k]);
      RedactedEntry(v, skip, strict, k);
      if k in skip {
        EntryText(m, k, t);
      } else {
        TextsRedacted(m[k], skip, strict);
        if RedactedFrom(t, m[k], strict) {
          var u :| u in Texts(m[k]) && t == RedactedText(u, strict);
          EntryText(m, k, u);
        }
      }
    }
  }

  /** A string under a key of a dictionary or model object is a string of it. */
  lemma EntryText(m: map<string, Value>, k: string, t: string)
    requires k in m && t in Texts(m[k])
    ensures t in Texts(Dict(m)) && t in Texts(Record(m))
  {
  }

  // ----------------------------------------------------- redact_dict_keys

  /** `redact_dict_keys` changes text only. */
  lemma {:induction false} DictKeysKeepShape(m: map<string, Value>, keys: set<string>, skip: set<string>, strict: bool)
    ensures Erase(Dict(RedactDictKeys(m, keys, skip, strict))) == Erase(Dict(m))
    decreases Dict(m)
  {
    var out := RedactDictKeys(m, keys, skip, strict);
    forall k | k in m ensures Erase(out[k]) == Erase(m[k]) {
      if k !in skip && k in keys {
        RedactKeepsShape(m[k], skip, strict);
      } else if k !in skip && m[k].Dict? {
        DictKeysKeepShape(m[k].entries, keys, skip, strict);
      }
    }
    ErasedEntries(m, out);
  }

  /** Every string `redact_dict_keys` returns was in the input, or is the
      redaction of a string of the input. */
  lemma {:induction false} DictKeysTexts(m: map<string, Value>, keys: set<string>, skip: set<string>, strict: bool)
    ensures forall t :: t in Texts(Dict(RedactDictKeys(m, keys, skip, strict))) ==>
              t in Texts(Dict(m)) || RedactedFrom(t, Dict(m), strict)
    decreases Dict(m)
  {
    var out := RedactDictKeys(m, keys, skip, strict);
    forall t | t in Texts(Dict(out)) ensures t in Texts(Dict(m)) || RedactedFrom(t, Dict(m), strict) {
      var k :| k in out && t in Texts(out[k]);
      if k in skip || (k !in keys && !m[k].Dict?) {
        EntryText(m, k, t);
      } else if k in keys {
        TextsRedacted(m[k], skip, strict);
        if RedactedFrom(t, m[k], strict) {
          var u :| u in Texts(m[k]) && t == RedactedText(u, strict);
          EntryText(m, k, u);
        } else {
          EntryText(m, k, t);
        }
      } else {
        DictKeysTexts(m[k].entries, keys, skip, strict);
        assert Texts(Dict(m[k].entries)) == Texts(m[k]);
        if RedactedFrom(t, m[k], strict) {
          var u :| u in Texts(m[k]) && t == RedactedText(u, strict);
          EntryText(m, k, u);
        } else {
          EntryText(m, k, t);
        }
      }
    }
  }
}
