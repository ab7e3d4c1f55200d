/**
 What a payment trace keeps of a value: every value under a sensitive key is replaced by a mark, and
 where that happened is noted. Values are finite trees; keys are compared in lower case.
 */
module Redaction {
  import Text
  import PaymentReference

  const REDACTED_KEYS: seq<string> := [
    "authorization", "x-signature", "access_token", "refresh_token", "client_secret", "secret",
    "password", "token", "card_number", "security_code", "cvv"
  ]

  const MAX_DEPTH: nat := 8

  /**
   A value to trace. An `Instance` is an object of a class: it has a plain form, unless that form is
   undefined, and own fields.
   */
  datatype Value =
    | Null
    | Undefined
    | Primitive(text: string)
    | Array(items: seq<Value>)
    | Object(fields: seq<Field>)
    | Instance(plain: Value, own: seq<Field>)

  datatype Field = Field(key: string, value: Value)

  const MARK := Primitive("[REDACTADO]")

  predicate Sensitive(key: string) {
    Text.ContainsAny(Text.Lower(key), REDACTED_KEYS)
  }

  // ---------- What is written ----------

  function Redact(value: Value, depth: nat): Value
    decreases value, 1
  {
    if depth > MAX_DEPTH then value
    else
      match value
      case Array(items) => Array(RedactAll(items, depth))
      case Object(fields) => Object(RedactFields(fields, depth))
      case Instance(plain, own) => if plain.Undefined? then Object(RedactFields(own, depth)) else plain
      case _ => value
  }

  function RedactAll(items: seq<Value>, depth: nat): (r: seq<Value>)
    ensures |r| == |items|
    ensures forall i | 0 <= i < |r| :: r[i] == Redact(items[i], depth + 1)
    decreases items, 0
  {
    seq(|items|, i requires 0 <= i < |items| => Redact(items[i], depth + 1))
  }

  function RedactField(field: Field, depth: nat): Field
    decreases field, 0
  {
    Field(field.key, if Sensitive(field.key) then MARK else Redact(field.value, depth + 1))
  }

  function RedactFields(fields: seq<Field>, depth: nat): (r: seq<Field>)
    ensures |r| == |fields|
    ensures forall i | 0 <= i < |r| :: r[i] == RedactField(fields[i], depth)
    decreases fields, 0
  {
    seq(|fields|, i requires 0 <= i < |fields| => RedactField(fields[i], depth))
  }

  // ---------- Where it was replaced ----------

  datatype Step = Index(i: nat) | Member(i: nat, key: string)

  type Place = seq<Step>

  function Under(step: Step, places: seq<Place>): (r: seq<Place>)
    ensures |r| == |places| && forall i | 0 <= i < |r| :: r[i] == [step] + places[i]
  {
    seq(|places|, i requires 0 <= i < |places| => [step] + places[i])
  }

  /** The places replaced, in the order of the traversal. */
  function Places(value: Value, depth: nat): seq<Place>
    decreases value, 1
  {
    if depth > MAX_DEPTH then []
    else
      match value
      case Array(items) => ItemPlaces(items, depth, 0)
      case Object(fields) => FieldPlaces(fields, depth, 0)
      case Instance(plain, own) => if plain.Undefined? then FieldPlaces(own, depth, 0) else []
      case _ => []
  }

  function ItemPlaces(items: seq<Value>, depth: nat, from: nat): seq<Place>
    requires from <= |items|
    decreases items, 0, |items| - from
  {
    if from == |items| then []
    else Under(Index(from), Places(items[from], depth + 1)) + ItemPlaces(items, depth, from + 1)
  }

  /** One field's places: itself if its key is sensitive, or whatever lies below it. */
  function PlacesOfField(field: Field, i: nat, depth: nat): seq<Place>
    decreases field, 0
  {
    var step := Member(i, field.key);
    if Sensitive(field.key) then [[step]] else Under(step, Places(field.value, depth + 1))
  }

  function FieldPlaces(fields: seq<Field>, depth: nat, from: nat): seq<Place>
    requires from <= |fields|
    decreases fields, 0, |fields| - from
  {
    if from == |fields| then []
    else PlacesOfField(fields[from], from, depth) + FieldPlaces(fields, depth, from + 1)
  }

  function Extend(path: string, step: Step): string {
    match step
    case Index(i) => path + "[" + PaymentReference.Decimal(i) + "]"
    case Member(_, key) => if path == "" then key else path + "." + key
  }

  function Render(path: string, place: Place): string
    decreases place
  {
    if place == [] then path else Render(Extend(path, place[0]), place[1..])
  }

  function Rendered(path: string, places: seq<Place>): (r: seq<string>)
    ensures |r| == |places|
  {
    seq(|places|, i requires 0 <= i < |places| => Render(path, places[i]))
  }

  lemma RenderedUnder(path: string, step: Step, places: seq<Place>)
    ensures Rendered(path, Under(step, places)) == Rendered(Extend(path, step), places)
  {
    forall i | 0 <= i < |places| ensures Render(path, Under(step, places)[i]) == Render(Extend(path, step), places[i]) {
      assert ([step] + places[i])[1..] == places[i];
    }
  }

  lemma RenderedField(path: string, field: Field, i: nat, depth: nat)
    ensures var here := Extend(path, Member(i, field.key));
            Rendered(path, PlacesOfField(field, i, depth)) ==
            if Sensitive(field.key) then [here] else Rendered(here, Places(field.value, depth + 1))
  {
    var step := Member(i, field.key);
    if Sensitive(field.key) {
      assert Render(path, [step]) == Render(Extend(path, step), []);
    } else {
      RenderedUnder(path, step, Places(field.value, depth + 1));
    }
  }

  // ---------- The service's recursion ----------

  class Found {
    var paths: seq<string>

    constructor ()
      ensures paths == []
    {
      paths := [];
    }
  }

  /** Replaces and notes as it goes. */
  method RedactValue(value: Value, path: string, found: Found, depth: nat) returns (r: Value)
    modifies found
    ensures r == Redact(value, depth)
    ensures Noted(old(found.paths), found.paths, path, Places(value, depth))
    decreases value, 1
  {
    if depth > MAX_DEPTH || value.Null? || value.Undefined? || value.Primitive? {
      return value;
    }
    if value.Array? {
      var items := RedactItems(value.items, path, found, depth);
      return Array(items);
    }
    if value.Instance? && !value.plain.Undefined? {
      assert found.paths == found.paths + Rendered(path, []);
      return value.plain;
    }
    var fields := if value.Object? then value.fields else value.own;
    var out := RedactEntries(fields, path, found, depth);
    return Object(out);
  }

  /** The paths noted since `before` are those of the places. */
  ghost predicate Noted(before: seq<string>, after: seq<string>, path: string, places: seq<Place>) {
    after == before + Rendered(path, places)
  }

  /** Noting one more item, or field: the places left are one group fewer. */
  lemma OneMore(
      before: seq<string>, middle: seq<string>, after: seq<string>, path: string,
      noted: seq<Place>, here: seq<Place>, left: seq<Place>)
    requires Noted(before, middle, path, noted) && Noted(middle, after, path, here)
    ensures noted + here + left == noted + (here + left)
    ensures Noted(before, after, path, noted + here)
  {
  }

  method RedactItems(items: seq<Value>, path: string, found: Found, depth: nat) returns (out: seq<Value>)
    modifies found
    ensures out == RedactAll(items, depth)
    ensures Noted(old(found.paths), found.paths, path, ItemPlaces(items, depth, 0))
    decreases items, 0
  {
    out := [];
    ghost var before, noted: seq<Place> := found.paths, [];
    ghost var whole, all := RedactAll(items, depth), ItemPlaces(items, depth, 0);
    for i := 0 to |items|
      invariant out == whole[..i]
      invariant noted + ItemPlaces(items, depth, i) == all
      invariant Noted(before, found.paths, path, noted)
    {
      ghost var middle := found.paths;
      var item := RedactItem(items[i], i, path, found, depth);
      out := out + [item];
      ghost var here := Under(Index(i), Places(items[i], depth + 1));
      OneMore(before, middle, found.paths, path, noted, here, ItemPlaces(items, depth, i + 1));
      noted := noted + here;
    }
    assert noted + [] == noted;
  }

  method RedactItem(item: Value, i: nat, path: string, found: Found, depth: nat) returns (out: Value)
    modifies found
    ensures out == Redact(item, depth + 1)
    ensures Noted(old(found.paths), found.paths, path, Under(Index(i), Places(item, depth + 1)))
    decreases item, 2
  {
    RenderedUnder(path, Index(i), Places(item, depth + 1));
    out := RedactValue(item, path + "[" + PaymentReference.Decimal(i) + "]", found, depth + 1);
  }

  method RedactEntries(fields: seq<Field>, path: string, found: Found, depth: nat) returns (out: seq<Field>)
    modifies found
    ensures out == RedactFields(fields, depth)
    ensures Noted(old(found.paths), found.paths, path, FieldPlaces(fields, depth, 0))
    decreases fields, 0
  {
    out := [];
    ghost var before, noted: seq<Place> := found.paths, [];
    ghost var whole, all := RedactFields(fields, depth), FieldPlaces(fields, depth, 0);
    for i := 0 to |fields|
      invariant out == whole[..i]
      invariant noted + FieldPlaces(fields, depth, i) == all
      invariant Noted(before, found.paths, path, noted)
    {
      ghost var middle := found.paths;
      var field := RedactEntry(fields[i], i, path, found, depth);
      out := out + [field];
      ghost var here := PlacesOfField(fields[i], i, depth);
      OneMore(before, middle, found.paths, path, noted, here, FieldPlaces(fields, depth, i + 1));
      noted := noted + here;
    }
    assert noted + [] == noted;
  }

  method RedactEntry(field: Field, i: nat, path: string, found: Found, depth: nat) returns (out: Field)
    modifies found
    ensures out == RedactField(field, depth)
    ensures Noted(old(found.paths), found.paths, path, PlacesOfField(field, i, depth))
    decreases field, 0
  {
    var here := if path == "" then field.key else path + "." + field.key;
    RenderedField(path, field, i, depth);
    if Sensitive(field.key) {
      found.paths := found.paths + [here];
      out := Field(field.key, MARK);
    } else {
      var inner := RedactValue(field.value, here, found, depth + 1);
      out := Field(field.key, inner);
    }
  }
}
