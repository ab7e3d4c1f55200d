/** What redaction removes, what it leaves alone, what it notes, and when doing it twice changes nothing. */
module RedactionFacts {
  import opened Wrappers
  import opened Redaction
  import Text

  // ---------- The places, described without a traversal ----------

  /** The fields the traversal goes into: an object's, or those of an instance without a plain form. */
  function Members(value: Value): Option<seq<Field>> {
    match value
    case Object(fields) => Some(fields)
    case Instance(plain, own) => if plain.Undefined? then Some(own) else None
    case _ => None
  }

  /** `place` leads to the first sensitive key on its way, through containers within the depth limit. */
  ghost predicate Reached(value: Value, depth: nat, place: Place)
    decreases |place|
  {
    && place != [] && depth <= MAX_DEPTH
    && match place[0]
       case Index(i) => value.Array? && i < |value.items| && Reached(value.items[i], depth + 1, place[1..])
       case Member(i, key) =>
         var members := Members(value);
         && members.Some? && i < |members.value| && members.value[i].key == key
         && if Sensitive(key) then |place| == 1 else Reached(members.value[i].value, depth + 1, place[1..])
  }

  lemma InUnder(step: Step, places: seq<Place>, place: Place)
    ensures place in Under(step, places) <==> place != [] && place[0] == step && place[1..] in places
  {
    if place != [] && place[0] == step && place[1..] in places {
      var i :| 0 <= i < |places| && places[i] == place[1..];
      assert Under(step, places)[i] == place;
    }
    if place in Under(step, places) {
      var i :| 0 <= i < |places| && Under(step, places)[i] == place;
      assert ([step] + places[i])[1..] == places[i];
    }
  }

  lemma InEither(first: seq<Place>, rest: seq<Place>, place: Place)
    ensures place in first + rest <==> place in first || place in rest
  {
  }

  lemma {:induction false} InItemPlaces(items: seq<Value>, depth: nat, from: nat, place: Place)
    requires from <= |items|
    ensures place in ItemPlaces(items, depth, from) <==>
            && place != [] && place[0].Index? && from <= place[0].i < |items|
            && place[1..] in Places(items[place[0].i], depth + 1)
    decreases |items| - from
  {
    if from < |items| {
      var first := Under(Index(from), Places(items[from], depth + 1));
      InUnder(Index(from), Places(items[from], depth + 1), place);
      InItemPlaces(items, depth, from + 1, place);
      InEither(first, ItemPlaces(items, depth, from + 1), place);
      assert ItemPlaces(items, depth, from) == first + ItemPlaces(items, depth, from + 1);
    }
  }

  lemma InPlacesOfField(field: Field, i: nat, depth: nat, place: Place)
    ensures place in PlacesOfField(field, i, depth) <==>
            && place != [] && place[0] == Member(i, field.key)
            && if Sensitive(field.key) then |place| == 1 else place[1..] in Places(field.value, depth + 1)
  {
    if !Sensitive(field.key) {
      InUnder(Member(i, field.key), Places(field.value, depth + 1), place);
    } else if place != [] && place[0] == Member(i, field.key) && |place| == 1 {
      assert place == [Member(i, field.key)];
    }
  }

  /** The place lies in the field it names. */
  predicate InField(fields: seq<Field>, depth: nat, from: nat, place: Place) {
    && place != [] && place[0].Member? && from <= place[0].i < |fields|
    && place in PlacesOfField(fields[place[0].i], place[0].i, depth)
  }

  lemma {:induction false} InFieldPlaces(fields: seq<Field>, depth: nat, from: nat, place: Place)
    requires from <= |fields|
    ensures place in FieldPlaces(fields, depth, from) <==> InField(fields, depth, from, place)
    decreases |fields| - from
  {
    if from < |fields| {
      var first, rest := PlacesOfField(fields[from], from, depth), FieldPlaces(fields, depth, from + 1);
      InPlacesOfField(fields[from], from, depth, place);
      InFieldPlaces(fields, depth, from + 1, place);
      InEither(first, rest, place);
      assert FieldPlaces(fields, depth, from) == first + rest;
      assert InField(fields, depth, from, place) <==> InField(fields, depth, from + 1, place) || place in first;
    }
  }

  /** A place is noted exactly when it is the first sensitive key on its way within the depth limit. */
  lemma {:induction false} NotedIsReached(value: Value, depth: nat, place: Place)
    ensures place in Places(value, depth) <==> Reached(value, depth, place)
    decreases |place|
  {
    if depth <= MAX_DEPTH {
      if value.Array? {
        InItemPlaces(value.items, depth, 0, place);
        if place != [] && place[0].Index? && place[0].i < |value.items| {
          NotedIsReached(value.items[place[0].i], depth + 1, place[1..]);
        }
      } else if Members(value).Some? {
        var fields := Members(value).value;
        InFieldPlaces(fields, depth, 0, place);
        if place != [] && place[0].Member? && place[0].i < |fields| {
          InPlacesOfField(fields[place[0].i], place[0].i, depth, place);
          NotedIsReached(fields[place[0].i].value, depth + 1, place[1..]);
        }
      }
    }
  }

  // ---------- Once each, in order ----------

  function Position(step: Step): nat {
    step.i
  }

  /** `p` comes before `q` in the traversal. */
  predicate Before(p: Place, q: Place)
    decreases |p|
  {
    p != [] && q != [] &&
    (Position(p[0]) < Position(q[0]) || (p[0] == q[0] && Before(p[1..], q[1..])))
  }

  ghost predicate InOrder(places: seq<Place>) {
    forall i, j | 0 <= i < j < |places| :: Before(places[i], places[j])
  }

  lemma UnderInOrder(step: Step, places: seq<Place>)
    requires InOrder(places)
    ensures InOrder(Under(step, places))
  {
    var r := Under(step, places);
    forall i, j | 0 <= i < j < |r| ensures Before(r[i], r[j]) {
      assert ([step] + places[i])[1..] == places[i] && ([step] + places[j])[1..] == places[j];
    }
  }

  ghost predicate StartAt(places: seq<Place>, at: nat) {
    forall p | p in places :: p != [] && Position(p[0]) == at
  }

  ghost predicate StartAfter(places: seq<Place>, at: nat) {
    forall p | p in places :: p != [] && Position(p[0]) > at
  }

  lemma ConcatInOrder(first: seq<Place>, second: seq<Place>, at: nat)
    requires InOrder(first) && InOrder(second) && StartAt(first, at) && StartAfter(second, at)
    ensures InOrder(first + second)
  {
    var r := first + second;
    forall i, j | 0 <= i < j < |r| ensures Before(r[i], r[j]) {
      if i < |first| <= j {
        assert r[i] in first && r[j] in second;
      }
    }
  }

  ghost predicate VisitedInOrder(value: Value, depth: nat) {
    InOrder(Places(value, depth))
  }

  lemma ItemStarts(item: Value, i: nat, depth: nat)
    requires VisitedInOrder(item, depth)
    ensures var here := Under(Index(i), Places(item, depth));
            InOrder(here) && StartAt(here, i)
  {
    var here := Under(Index(i), Places(item, depth));
    UnderInOrder(Index(i), Places(item, depth));
    forall p | p in here ensures p != [] && Position(p[0]) == i {
      InUnder(Index(i), Places(item, depth), p);
    }
  }

  lemma {:induction false} ItemsInOrder(items: seq<Value>, depth: nat, from: nat)
    requires from <= |items|
    requires forall i | from <= i < |items| :: VisitedInOrder(items[i], depth + 1)
    ensures InOrder(ItemPlaces(items, depth, from))
    decreases |items| - from
  {
    if from < |items| {
      var rest := ItemPlaces(items, depth, from + 1);
      ItemStarts(items[from], from, depth + 1);
      ItemsInOrder(items, depth, from + 1);
      forall p | p in rest ensures p != [] && Position(p[0]) > from {
        InItemPlaces(items, depth, from + 1, p);
      }
      ConcatInOrder(Under(Index(from), Places(items[from], depth + 1)), rest, from);
    }
  }

  lemma FieldStarts(field: Field, i: nat, depth: nat)
    requires VisitedInOrder(field.value, depth + 1)
    ensures var here := PlacesOfField(field, i, depth);
            InOrder(here) && StartAt(here, i)
  {
    var here := PlacesOfField(field, i, depth);
    UnderInOrder(Member(i, field.key), Places(field.value, depth + 1));
    forall p | p in here ensures p != [] && Position(p[0]) == i {
      InPlacesOfField(field, i, depth, p);
    }
  }

  lemma {:induction false} FieldsInOrder(fields: seq<Field>, depth: nat, from: nat)
    requires from <= |fields|
    requires forall i | from <= i < |fields| :: VisitedInOrder(fields[i].value, depth + 1)
    ensures InOrder(FieldPlaces(fields, depth, from))
    decreases |fields| - from
  {
    if from < |fields| {
      var rest := FieldPlaces(fields, depth, from + 1);
      FieldStarts(fields[from], from, depth);
      FieldsInOrder(fields, depth, from + 1);
      forall p | p in rest ensures p != [] && Position(p[0]) > from {
        InFieldPlaces(fields, depth, from + 1, p);
      }
      ConcatInOrder(PlacesOfField(fields[from], from, depth), rest, from);
    }
  }

  /** The noted places follow the traversal strictly, so none is noted twice. */
  lemma {:induction false} NotedOnceInOrder(value: Value, depth: nat)
    ensures InOrder(Places(value, depth))
    decreases value
  {
    match value
    case Array(items) =>
      forall i | 0 <= i < |items| ensures VisitedInOrder(items[i], depth + 1) { NotedOnceInOrder(items[i], depth + 1); }
      ItemsInOrder(items, depth, 0);
    case Object(fields) =>
      forall i | 0 <= i < |fields| ensures VisitedInOrder(fields[i].value, depth + 1) {
        NotedOnceInOrder(fields[i].value, depth + 1);
      }
      FieldsInOrder(fields, depth, 0);
    case Instance(_, own) =>
      forall i | 0 <= i < |own| ensures VisitedInOrder(own[i].value, depth + 1) {
        NotedOnceInOrder(own[i].value, depth + 1);
      }
      FieldsInOrder(own, depth, 0);
    case _ =>
  }

  // ---------- What is replaced and what is not ----------

  function Get(value: Value, place: Place): Option<Value>
    decreases |place|
  {
    if place == [] then Some(value)
    else
      match place[0]
      case Index(i) => if value.Array? && i < |value.items| then Get(value.items[i], place[1..]) else None
      case Member(i, key) =>
        var members := Members(value);
        if members.Some? && i < |members.value| && members.value[i].key == key then Get(members.value[i].value, place[1..])
        else None
  }

  /** Every noted place holds the mark afterwards. */
  lemma {:induction false} ReachedIsMarked(value: Value, depth: nat, place: Place)
    requires Reached(value, depth, place)
    ensures Get(Redact(value, depth), place) == Some(MARK)
    decreases |place|
  {
    match place[0]
    case Index(i) => ReachedIsMarked(value.items[i], depth + 1, place[1..]);
    case Member(i, key) =>
      var members := Members(value).value;
      var after := Redact(value, depth);
      assert after == Object(RedactFields(members, depth));
      assert after.fields[i] == RedactField(members[i], depth);
      if Sensitive(key) {
        assert place[1..] == [];
      } else {
        ReachedIsMarked(members[i].value, depth + 1, place[1..]);
      }
  }

  predicate NoSensitiveKey(place: Place) {
    forall i | 0 <= i < |place| && place[i].Member? :: !Sensitive(place[i].key)
  }

  predicate SameKeys(fields: seq<Field>, r: Value) {
    r.Object? && |r.fields| == |fields| && forall i | 0 <= i < |fields| :: r.fields[i].key == fields[i].key
  }

  /** The same kind of value, with as many items or the same keys; a leaf stays as it is. */
  predicate SameShape(v: Value, r: Value) {
    match v
    case Array(items) => r.Array? && |r.items| == |items|
    case Object(fields) => SameKeys(fields, r)
    case Instance(plain, own) => r == v || if plain.Undefined? then SameKeys(own, r) else r == plain
    case _ => r == v
  }

  lemma RedactKeepsShape(value: Value, depth: nat)
    ensures SameShape(value, Redact(value, depth))
  {
    if depth <= MAX_DEPTH && Members(value).Some? {
      var fields, r := Members(value).value, Redact(value, depth);
      forall i | 0 <= i < |fields| ensures r.fields[i].key == fields[i].key {
        assert r.fields[i] == RedactField(fields[i], depth);
      }
    }
  }

  /**
   Off the sensitive keys everything is where it was: at any place that passes none, the result holds
   the redaction of what was there, of the same shape, and a leaf is unchanged.
   */
  lemma {:induction false} ElsewhereUntouched(value: Value, depth: nat, place: Place)
    requires NoSensitiveKey(place) && Get(value, place).Some?
    ensures Get(Redact(value, depth), place) == Some(Redact(Get(value, place).value, depth + |place|))
    ensures SameShape(Get(value, place).value, Get(Redact(value, depth), place).value)
    decreases |place|
  {
    RedactKeepsShape(Get(value, place).value, depth + |place|);
    if place != [] {
      if depth > MAX_DEPTH {
        BeyondTheLimit(value, depth, place);
      } else {
        RestIsInsensitive(place);
        match place[0]
        case Index(i) => ElsewhereUntouched(value.items[i], depth + 1, place[1..]);
        case Member(i, _) =>
          ElsewhereUntouched(Members(value).value[i].value, depth + 1, place[1..]);
          MemberIsRedacted(value, depth, i);
      }
    }
  }

  lemma RestIsInsensitive(place: Place)
    requires place != [] && NoSensitiveKey(place)
    ensures NoSensitiveKey(place[1..])
  {
    forall i | 0 <= i < |place[1..]| && place[1..][i].Member? ensures !Sensitive(place[1..][i].key) {
      assert place[1..][i] == place[i + 1];
    }
  }

  lemma MemberIsRedacted(value: Value, depth: nat, i: nat)
    requires depth <= MAX_DEPTH && Members(value).Some? && i < |Members(value).value|
    ensures Members(Redact(value, depth)).Some? && |Members(Redact(value, depth)).value| == |Members(value).value|
    ensures Members(Redact(value, depth)).value[i] == RedactField(Members(value).value[i], depth)
  {
    var members := Members(value).value;
    assert Redact(value, depth) == Object(RedactFields(members, depth));
    assert RedactFields(members, depth)[i] == RedactField(members[i], depth);
  }

  lemma BeyondTheLimit(value: Value, depth: nat, place: Place)
    requires depth > MAX_DEPTH
    ensures Get(Redact(value, depth), place) == Get(value, place)
    ensures Get(value, place).Some? ==> Redact(Get(value, place).value, depth + |place|) == Get(value, place).value
  {
  }

  // ---------- Doing it twice ----------

  /** Nothing here would be replaced or converted. */
  predicate Clean(value: Value, depth: nat)
    decreases value
  {
    depth > MAX_DEPTH ||
    match value
    case Array(items) => forall i | 0 <= i < |items| :: Clean(items[i], depth + 1)
    case Object(fields) => forall i | 0 <= i < |fields| :: !Sensitive(fields[i].key) && Clean(fields[i].value, depth + 1)
    case Instance(_, _) => false
    case _ => true
  }

  /** Every plain form that redaction takes over as it is, is clean. */
  predicate Stable(value: Value, depth: nat)
    decreases value
  {
    depth > MAX_DEPTH ||
    match value
    case Array(items) => forall i | 0 <= i < |items| :: Stable(items[i], depth + 1)
    case Object(fields) => forall i | 0 <= i < |fields| :: Sensitive(fields[i].key) || Stable(fields[i].value, depth + 1)
    case Instance(plain, own) =>
      if plain.Undefined? then forall i | 0 <= i < |own| :: Sensitive(own[i].key) || Stable(own[i].value, depth + 1)
      else Clean(plain, depth)
    case _ => true
  }

  lemma {:induction false} CleanStays(value: Value, depth: nat)
    requires Clean(value, depth)
    ensures Redact(value, depth) == value && Places(value, depth) == []
    decreases value
  {
    if depth <= MAX_DEPTH {
      match value
      case Array(items) =>
        forall i | 0 <= i < |items| ensures RedactAll(items, depth)[i] == items[i] && Places(items[i], depth + 1) == [] {
          CleanStays(items[i], depth + 1);
        }
        assert RedactAll(items, depth) == items;
        NoItemPlaces(items, depth, 0);
      case Object(fields) =>
        forall i | 0 <= i < |fields| ensures RedactFields(fields, depth)[i] == fields[i] && Places(fields[i].value, depth + 1) == [] {
          CleanStays(fields[i].value, depth + 1);
          assert RedactFields(fields, depth)[i] == RedactField(fields[i], depth);
        }
        assert RedactFields(fields, depth) == fields;
        NoFieldPlaces(fields, depth, 0);
      case _ =>
    }
  }

  lemma {:induction false} NoItemPlaces(items: seq<Value>, depth: nat, from: nat)
    requires from <= |items| && forall i | 0 <= i < |items| :: Places(items[i], depth + 1) == []
    ensures ItemPlaces(items, depth, from) == []
    decreases |items| - from
  {
    if from < |items| {
      NoItemPlaces(items, depth, from + 1);
    }
  }

  lemma {:induction false} NoFieldPlaces(fields: seq<Field>, depth: nat, from: nat)
    requires from <= |fields|
    requires forall i | 0 <= i < |fields| :: !Sensitive(fields[i].key) && Places(fields[i].value, depth + 1) == []
    ensures FieldPlaces(fields, depth, from) == []
    decreases |fields| - from
  {
    if from < |fields| {
      NoFieldPlaces(fields, depth, from + 1);
    }
  }

  predicate Fixed(value: Value, depth: nat) {
    var once := Redact(value, depth);
    Redact(once, depth) == once && Places(once, depth) == Places(value, depth)
  }

  predicate SamePlaces(v: Value, w: Value, depth: nat) {
    Places(v, depth) == Places(w, depth)
  }

  lemma {:induction false} SameItemPlaces(a: seq<Value>, b: seq<Value>, depth: nat, from: nat)
    requires from <= |a| == |b|
    requires forall i | 0 <= i < |a| :: SamePlaces(a[i], b[i], depth + 1)
    ensures ItemPlaces(a, depth, from) == ItemPlaces(b, depth, from)
    decreases |a| - from
  {
    if from < |a| {
      assert SamePlaces(a[from], b[from], depth + 1);
      SameItemPlaces(a, b, depth, from + 1);
    }
  }

  lemma SamePlacesOfField(f: Field, g: Field, i: nat, depth: nat)
    requires f.key == g.key && (Sensitive(f.key) || SamePlaces(f.value, g.value, depth + 1))
    ensures PlacesOfField(f, i, depth) == PlacesOfField(g, i, depth)
  {
  }

  lemma {:induction false} SameFieldPlaces(a: seq<Field>, b: seq<Field>, depth: nat, from: nat)
    requires from <= |a| == |b|
    requires forall i | 0 <= i < |a| ::
               a[i].key == b[i].key && (Sensitive(a[i].key) || SamePlaces(a[i].value, b[i].value, depth + 1))
    ensures FieldPlaces(a, depth, from) == FieldPlaces(b, depth, from)
    decreases |a| - from
  {
    if from < |a| {
      SamePlacesOfField(a[from], b[from], from, depth);
      SameFieldPlaces(a, b, depth, from + 1);
    }
  }

  lemma {:induction false} StableItems(items: seq<Value>, depth: nat)
    requires depth <= MAX_DEPTH && forall i | 0 <= i < |items| :: Fixed(items[i], depth + 1)
    ensures Fixed(Array(items), depth)
  {
    var once := RedactAll(items, depth);
    assert RedactAll(once, depth) == once;
    forall i | 0 <= i < |items| ensures SamePlaces(once[i], items[i], depth + 1) {
      assert Fixed(items[i], depth + 1);
    }
    SameItemPlaces(once, items, depth, 0);
  }

  lemma {:induction false} StableFields(fields: seq<Field>, depth: nat)
    requires depth <= MAX_DEPTH
    requires forall i | 0 <= i < |fields| :: Sensitive(fields[i].key) || Fixed(fields[i].value, depth + 1)
    ensures var once := RedactFields(fields, depth);
            RedactFields(once, depth) == once && FieldPlaces(once, depth, 0) == FieldPlaces(fields, depth, 0)
  {
    var once := RedactFields(fields, depth);
    forall i | 0 <= i < |fields| ensures RedactFields(once, depth)[i] == once[i] {
      assert once[i] == RedactField(fields[i], depth);
      assert RedactFields(once, depth)[i] == RedactField(once[i], depth);
    }
    assert RedactFields(once, depth) == once;
    forall i | 0 <= i < |fields|
      ensures once[i].key == fields[i].key
      ensures Sensitive(fields[i].key) || SamePlaces(once[i].value, fields[i].value, depth + 1)
    {
      assert once[i] == RedactField(fields[i], depth);
    }
    SameFieldPlaces(once, fields, depth, 0);
  }

  lemma {:induction false} StableIsFixed(value: Value, depth: nat)
    requires Stable(value, depth)
    ensures Fixed(value, depth)
    decreases value
  {
    if depth <= MAX_DEPTH {
      match value
      case Array(items) =>
        forall i | 0 <= i < |items| ensures Fixed(items[i], depth + 1) { StableIsFixed(items[i], depth + 1); }
        StableItems(items, depth);
      case Object(fields) =>
        forall i | 0 <= i < |fields| && !Sensitive(fields[i].key) ensures Fixed(fields[i].value, depth + 1) {
          StableIsFixed(fields[i].value, depth + 1);
        }
        StableFields(fields, depth);
      case Instance(plain, own) =>
        if plain.Undefined? {
          forall i | 0 <= i < |own| && !Sensitive(own[i].key) ensures Fixed(own[i].value, depth + 1) {
            StableIsFixed(own[i].value, depth + 1);
          }
          StableFields(own, depth);
        } else {
          CleanStays(plain, depth);
        }
      case _ =>
    }
  }

  /** A second pass that changes nothing and reaches what the first reached. */
  ghost predicate Repeats(value: Value, depth: nat) {
    var once := Redact(value, depth);
    && Redact(once, depth) == once
    && forall place :: Reached(once, depth, place) <==> Reached(value, depth, place)
  }

  lemma {:induction false} UnreachedIsClean(value: Value, depth: nat)
    requires Redact(value, depth) == value
    requires forall place :: !Reached(value, depth, place)
    ensures Clean(value, depth)
    decreases value
  {
    var below := depth + 1;
    if depth <= MAX_DEPTH {
      match value
      case Array(items) =>
        forall i | 0 <= i < |items| ensures Clean(items[i], depth + 1) {
          assert RedactAll(items, depth)[i] == items[i];
          forall place ensures !Reached(items[i], below, place) {
            assert ([Index(i)] + place)[1..] == place;
            assert !Reached(value, depth, [Index(i)] + place);
          }
          UnreachedIsClean(items[i], depth + 1);
        }
      case Object(fields) =>
        forall i | 0 <= i < |fields| ensures !Sensitive(fields[i].key) && Clean(fields[i].value, depth + 1) {
          assert RedactFields(fields, depth)[i] == RedactField(fields[i], depth);
          var step := Member(i, fields[i].key);
          assert !Reached(value, depth, [step]);
          forall place ensures !Reached(fields[i].value, below, place) {
            assert ([step] + place)[1..] == place;
            assert !Reached(value, depth, [step] + place);
          }
          UnreachedIsClean(fields[i].value, depth + 1);
        }
      case Instance(plain, own) =>
        // The result of redacting an instance is never that instance.
        InstanceChanges(plain, own, depth);
      case _ =>
    }
  }

  lemma InstanceChanges(plain: Value, own: seq<Field>, depth: nat)
    requires depth <= MAX_DEPTH
    ensures Redact(Instance(plain, own), depth) != Instance(plain, own)
  {
    var value := Instance(plain, own);
    assert value.plain != value;
  }

  lemma MemberRepeats(value: Value, fields: seq<Field>, depth: nat, i: nat)
    requires depth <= MAX_DEPTH && Members(value) == Some(fields) && Repeats(value, depth)
    requires i < |fields| && !Sensitive(fields[i].key)
    ensures Repeats(fields[i].value, depth + 1)
  {
    var once := Redact(value, depth);
    assert once == Object(RedactFields(fields, depth));
    assert once.fields[i] == RedactField(fields[i], depth);
    assert RedactFields(once.fields, depth)[i] == RedactField(once.fields[i], depth);
    var step := Member(i, fields[i].key);
    var below := depth + 1;
    forall place
      ensures Reached(once.fields[i].value, below, place) <==> Reached(fields[i].value, below, place)
    {
      assert ([step] + place)[1..] == place;
      assert Reached(once, depth, [step] + place) <==> Reached(value, depth, [step] + place);
    }
  }

  lemma ItemRepeats(items: seq<Value>, depth: nat, i: nat)
    requires depth <= MAX_DEPTH && Repeats(Array(items), depth) && i < |items|
    ensures Repeats(items[i], depth + 1)
  {
    var once := Redact(Array(items), depth);
    assert RedactAll(once.items, depth)[i] == Redact(once.items[i], depth + 1);
    var below := depth + 1;
    forall place ensures Reached(once.items[i], below, place) <==> Reached(items[i], below, place) {
      assert ([Index(i)] + place)[1..] == place;
      assert Reached(once, depth, [Index(i)] + place) <==> Reached(Array(items), depth, [Index(i)] + place);
    }
  }

  lemma {:induction false} RepeatsIsStable(value: Value, depth: nat)
    requires Repeats(value, depth)
    ensures Stable(value, depth)
    decreases value
  {
    if depth <= MAX_DEPTH {
      match value
      case Array(items) =>
        forall i | 0 <= i < |items| ensures Stable(items[i], depth + 1) {
          ItemRepeats(items, depth, i);
          RepeatsIsStable(items[i], depth + 1);
        }
      case Object(fields) =>
        forall i | 0 <= i < |fields| && !Sensitive(fields[i].key) ensures Stable(fields[i].value, depth + 1) {
          MemberRepeats(value, fields, depth, i);
          RepeatsIsStable(fields[i].value, depth + 1);
        }
      case Instance(plain, own) =>
        if plain.Undefined? {
          forall i | 0 <= i < |own| && !Sensitive(own[i].key) ensures Stable(own[i].value, depth + 1) {
            MemberRepeats(value, own, depth, i);
            RepeatsIsStable(own[i].value, depth + 1);
          }
        } else {
          UnreachedIsClean(plain, depth);
        }
      case _ =>
    }
  }

  /**
   Redacting twice gives the same value and the same places exactly when every plain form taken from an
   instance holds no sensitive key and no further instance within what is left of the depth limit.
   */
  lemma WhenRedactionIsIdempotent(value: Value, depth: nat)
    ensures Fixed(value, depth) <==> Stable(value, depth)
  {
    if Stable(value, depth) {
      StableIsFixed(value, depth);
    }
    if Fixed(value, depth) {
      forall place ensures Reached(Redact(value, depth), depth, place) <==> Reached(value, depth, place) {
        NotedIsReached(Redact(value, depth), depth, place);
        NotedIsReached(value, depth, place);
      }
      RepeatsIsStable(value, depth);
    }
  }

  /** The plain form of an instance is written as it comes, a secret in it included. */
  lemma PlainFormIsKept(key: string, text: string)
    requires Sensitive(key)
    ensures var secret := Object([Field(key, Primitive(text))]);
            Redact(Instance(secret, []), 0) == secret && !Fixed(Instance(secret, []), 0)
  {
    var secret := Object([Field(key, Primitive(text))]);
    assert !Clean(secret, 0) by { assert secret.fields[0].key == key; }
    WhenRedactionIsIdempotent(Instance(secret, []), 0);
  }

  lemma PlainFormKeepsASecret()
    ensures Sensitive("token")
    ensures var secret := Object([Field("token", Primitive("abc"))]);
            Redact(Instance(secret, []), 0) == secret && !Fixed(Instance(secret, []), 0)
  {
    TokenIsSensitive();
    PlainFormIsKept("token", "abc");
  }

  lemma {:induction false} ListedIsFound(s: string, patterns: seq<string>, i: nat)
    requires i < |patterns| && Text.Contains(s, patterns[i])
    ensures Text.ContainsAny(s, patterns)
  {
    if i > 0 {
      ListedIsFound(s, patterns[1..], i - 1);
    }
  }

  lemma TokenIsSensitive()
    ensures Sensitive("token")
  {
    assert Text.Lower("token") == "token";
    assert Text.At("token", REDACTED_KEYS[7], 0);
    ListedIsFound("token", REDACTED_KEYS, 7);
  }
}
