/** Normalisation of one entry of the model server's local listing to a
    model identifier (`extract_model_name`, src/pages/chat.py). */
module ModelName {

  /** The shapes a listing entry is told apart by, as a closed set:
      a record exposing a `model` attribute (the client library's model
      descriptor), a dictionary, a string, a tuple or list, and anything
      else. Dictionary keys are strings: only the key "name" is ever looked
      up. */
  datatype PyValue =
    | Record(model: PyValue)
    | Dict(items: map<string, PyValue>)
    | Str(s: string)
    | Sequence(elems: seq<PyValue>)
    | Other(id: nat)

  /** Python's `str(entry)` is not modelled: every operation that may fall
      back to it takes it as a parameter of this type. */
  type Repr = PyValue -> string

  /** The priority cascade: the first shape that matches decides. The result
      is a string except when a dictionary's "name" or a sequence's first
      element is returned, which Python leaves unchecked. */
  function ExtractModelName(entry: PyValue, repr: Repr): (r: PyValue)
    ensures !r.Str? ==> (entry.Dict? && "name" in entry.items) || (entry.Sequence? && |entry.elems| > 0)
    ensures entry.Str? ==> r == entry
    ensures entry.Other? ==> r == Str(repr(entry))
  {
    if entry.Record? && entry.model.Str? then entry.model
    else if entry.Dict? && "name" in entry.items then entry.items["name"]
    else if entry.Str? then entry
    else if entry.Sequence? && |entry.elems| > 0 then entry.elems[0]
    else Str(repr(entry))
  }

  /** The five resolution rules, in the order the cascade tries them. */
  datatype Rule = ModelAttribute | NameKey | PlainString | FirstElement | Fallback

  const Priority: seq<Rule> := [ModelAttribute, NameKey, PlainString, FirstElement, Fallback]

  /** Whether a rule is applicable to an entry, each rule read on its own. */
  predicate Applies(rule: Rule, entry: PyValue)
  {
    match rule
    case ModelAttribute => entry.Record? && entry.model.Str?
    case NameKey => entry.Dict? && "name" in entry.items
    case PlainString => entry.Str?
    case FirstElement => entry.Sequence? && |entry.elems| > 0
    case Fallback => true
  }

  /** What a rule returns when it is applicable. */
  function RuleValue(rule: Rule, entry: PyValue, repr: Repr): PyValue
    requires Applies(rule, entry)
  {
    match rule
    case ModelAttribute => entry.model
    case NameKey => entry.items["name"]
    case PlainString => entry
    case FirstElement => entry.elems[0]
    case Fallback => Str(repr(entry))
  }

  /** The cascade is first-match over `Priority`: some rule applies to every
      entry (the normaliser is total and never raises), and the result is
      the value of the earliest applicable rule. */
  lemma ExtractIsFirstMatch(entry: PyValue, repr: Repr)
    ensures exists k :: 0 <= k < |Priority| && Applies(Priority[k], entry)
                        && (forall j :: 0 <= j < k ==> !Applies(Priority[j], entry))
                        && ExtractModelName(entry, repr) == RuleValue(Priority[k], entry, repr)
  {
    var k := if Applies(ModelAttribute, entry) then 0
             else if Applies(NameKey, entry) then 1
             else if Applies(PlainString, entry) then 2
             else if Applies(FirstElement, entry) then 3
             else 4;
    assert forall j :: 0 <= j < k ==> !Applies(Priority[j], entry);
    assert ExtractModelName(entry, repr) == RuleValue(Priority[k], entry, repr);
  }

  /** A record whose `model` attribute is not a string is not a descriptor:
      it falls through every later rule to the string representation. */
  lemma NonStringModelFallsBack(entry: PyValue, repr: Repr)
    requires entry.Record? && !entry.model.Str?
    ensures ExtractModelName(entry, repr) == Str(repr(entry))
  {
  }

  /** An empty tuple or list has no first element and falls back too. */
  lemma EmptySequenceFallsBack(entry: PyValue, repr: Repr)
    requires entry.Sequence? && |entry.elems| == 0
    ensures ExtractModelName(entry, repr) == Str(repr(entry))
  {
  }

  /** A non-empty tuple or list yields its first element as it is, even when
      that element is not a string. */
  lemma FirstElementUnchecked(entry: PyValue, repr: Repr)
    requires entry.Sequence? && |entry.elems| > 0
    ensures ExtractModelName(entry, repr) == entry.elems[0]
  {
  }
}
