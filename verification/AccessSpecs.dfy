/** Lists of ReadAccessSpecification (section 21 of ANSI/ASHRAE 135-2024) as wiretest/codec.py builds and reads them. */
module AccessSpecs {
  import opened Wrappers
  import opened Tags

  datatype Spec = Spec(key: ObjectKey, properties: seq<nat>)

  predicate PropertiesInRange(properties: seq<nat>)
  {
    forall i :: 0 <= i < |properties| ==> properties[i] < 0x1_0000_0000
  }

  predicate SpecInRange(s: Spec) { KeyInRange(s.key) && PropertiesInRange(s.properties) }

  predicate SpecsInRange(list: seq<Spec>) { forall i :: 0 <= i < |list| ==> SpecInRange(list[i]) }

  function EncodeProperties(properties: seq<nat>): Octets
    requires PropertiesInRange(properties)
  {
    if properties == [] then [] else ContextUnsigned(0, properties[0]) + EncodeProperties(properties[1..])
  }

  function EncodeSpec(s: Spec): Octets
    requires SpecInRange(s)
  {
    ContextObjectId(0, s.key) + (OpeningTag(1) + (EncodeProperties(s.properties) + ClosingTag(1)))
  }

  function EncodeSpecs(list: seq<Spec>): Octets
    requires SpecsInRange(list)
  {
    if list == [] then [] else EncodeSpec(list[0]) + EncodeSpecs(list[1..])
  }

  // -- The dictionary the reader fills: entries keep the place where their key was first set ---------------

  function Find(members: seq<Spec>, key: ObjectKey): (r: nat)
    ensures r <= |members| && (r < |members| ==> members[r].key == key)
    ensures forall i :: 0 <= i < r ==> members[i].key != key
  {
    if members == [] || members[0].key == key then 0 else 1 + Find(members[1..], key)
  }

  function Put(members: seq<Spec>, s: Spec): seq<Spec>
  {
    var i := Find(members, s.key);
    if i < |members| then members[i := s] else members + [s]
  }

  function Append(members: seq<Spec>, key: ObjectKey, v: nat): seq<Spec>
    requires Find(members, key) < |members|
  {
    var i := Find(members, key);
    members[i := Spec(key, members[i].properties + [v])]
  }

  /** `current` is the object whose properties are being read. */
  datatype State = State(members: seq<Spec>, current: Option<ObjectKey>)

  predicate Consistent(s: State) { s.current.Some? ==> Find(s.members, s.current.value) < |s.members| }

  lemma FindFirst(members: seq<Spec>, key: ObjectKey, i: nat)
    requires i < |members| && members[i].key == key && forall j :: 0 <= j < i ==> members[j].key != key
    ensures Find(members, key) == i
  {
  }

  lemma PutFinds(members: seq<Spec>, s: Spec)
    ensures Find(Put(members, s), s.key) == Find(members, s.key) < |Put(members, s)|
    ensures Put(members, s)[Find(members, s.key)] == s
  {
    FindFirst(Put(members, s), s.key, Find(members, s.key));
  }

  lemma AppendIsPut(members: seq<Spec>, key: ObjectKey, v: nat)
    requires Find(members, key) < |members|
    ensures Append(members, key, v) == Put(members, Spec(key, members[Find(members, key)].properties + [v]))
  {
  }

  function Absorb(s: State, tag: Tag): (r: State)
    requires Consistent(s)
    ensures Consistent(r)
  {
    var field := tag.kind.Primitive? && tag.isContext && tag.number == 0;
    if field && |tag.body| == 4 && s.current.None? then
      var key := KeyOf(BigEndian(tag.body));
      var members := Put(s.members, Spec(key, []));
      PutFinds(s.members, Spec(key, []));
      State(members, Some(key))
    else if field && s.current.Some? then
      AppendIsPut(s.members, s.current.value, BigEndian(tag.body));
      PutFinds(s.members,
               Spec(s.current.value, s.members[Find(s.members, s.current.value)].properties + [BigEndian(tag.body)]));
      State(Append(s.members, s.current.value, BigEndian(tag.body)), s.current)
    else if tag.kind.Closing? && tag.number == 1 then State(s.members, None)
    else s
  }

  function ReadSpecs(value: Octets, p: nat, s: State): Decoded<seq<Spec>>
    requires Consistent(s)
    decreases if p < |value| then |value| - p else 0
  {
    if p >= |value| then Value(s.members)
    else
      var tag :- ReadTag(value, p);
      ReadSpecs(value, tag.next, Absorb(s, tag))
  }

  method ReadAccessSpecifications(value: Octets) returns (r: Decoded<seq<Spec>>)
    ensures r == ReadSpecs(value, 0, State([], None))
  {
    var members: seq<Spec>, position: nat, current: Option<ObjectKey> := [], 0, None;
    while position < |value|
      invariant Consistent(State(members, current))
      invariant ReadSpecs(value, 0, State([], None)) == ReadSpecs(value, position, State(members, current))
    {
      var read := ReadTag(value, position);
      if read.IsFailure() {
        return read.PropagateFailure();
      }
      var tag := read.value;
      ghost var next := Absorb(State(members, current), tag);
      position := tag.next;
      if tag.kind.Primitive? && tag.isContext && tag.number == 0 && |tag.body| == 4 && current.None? {
        current := Some(KeyOf(BigEndian(tag.body)));
        members := Put(members, Spec(current.value, []));
      } else if tag.kind.Primitive? && tag.isContext && tag.number == 0 && current.Some? {
        members := Append(members, current.value, BigEndian(tag.body));
      } else if tag.kind.Closing? && tag.number == 1 {
        current := None;
      }
      assert next == State(members, current);
    }
    r := Value(members);
  }

  // -- The dictionary's laws ------------------------------------------------------------------------------------

  lemma PutTwice(members: seq<Spec>, a: Spec, b: Spec)
    requires a.key == b.key
    ensures Put(Put(members, a), b) == Put(members, b)
  {
    PutFinds(members, a);
  }

  predicate Distinct(list: seq<Spec>) { forall i, j :: 0 <= i < j < |list| ==> list[i].key != list[j].key }

  lemma PutKeepsDistinct(members: seq<Spec>, s: Spec)
    requires Distinct(members)
    ensures Distinct(Put(members, s))
  {
  }

  /** A later specification of an object replaces an earlier one. */
  function Merged(list: seq<Spec>, members: seq<Spec>): seq<Spec>
  {
    if list == [] then members else Merged(list[1..], Put(members, list[0]))
  }

  lemma {:induction false} MergedIsDistinct(list: seq<Spec>, members: seq<Spec>)
    requires Distinct(members)
    ensures Distinct(Merged(list, members))
    decreases list
  {
    if list == [] {
    } else {
      PutKeepsDistinct(members, list[0]);
      MergedIsDistinct(list[1..], Put(members, list[0]));
    }
  }

  lemma {:induction false} DistinctIsMerged(list: seq<Spec>, members: seq<Spec>)
    requires Distinct(members + list)
    ensures Merged(list, members) == members + list
    decreases list
  {
    if list == [] {
      assert members + list == members;
    } else {
      forall i | 0 <= i < |members| ensures members[i].key != list[0].key {
        assert (members + list)[i].key != (members + list)[|members|].key;
      }
      assert members + list == (members + [list[0]]) + list[1..];
      DistinctIsMerged(list[1..], members + [list[0]]);
    }
  }

  // -- Reading what was built -----------------------------------------------------------------------------------

  /** The reader's loop, seen from outside: one tag at a time, until the end. */
  ghost predicate Steps(value: Octets, read: (nat, State) -> Decoded<seq<Spec>>)
  {
    && (forall p: nat, s: State {:trigger ReadTag(value, p), read(p, s)} ::
         Consistent(s) && ReadTag(value, p).Value? ==>
           read(p, s) == read(ReadTag(value, p).value.next, Absorb(s, ReadTag(value, p).value)))
    && (forall s: State {:trigger read(|value|, s)} :: Consistent(s) ==> read(|value|, s) == Value(s.members))
  }

  function Reader(value: Octets): (nat, State) -> Decoded<seq<Spec>>
  {
    (p: nat, s: State) => if Consistent(s) then ReadSpecs(value, p, s) else Truncated
  }

  lemma ReaderSteps(value: Octets)
    ensures Steps(value, Reader(value))
  {
  }

  /** While an object is current, a field is a property, also one of four octets. */
  lemma FieldIsProperty(s: Spec, members: seq<Spec>, tag: Tag)
    requires tag.number == 0 && tag.isContext && tag.kind.Primitive?
    ensures Consistent(State(Put(members, s), Some(s.key)))
    ensures Absorb(State(Put(members, s), Some(s.key)), tag) ==
            State(Put(members, Spec(s.key, s.properties + [BigEndian(tag.body)])), Some(s.key))
  {
    PutFinds(members, s);
    AppendIsPut(Put(members, s), s.key, BigEndian(tag.body));
    PutTwice(members, s, Spec(s.key, s.properties + [BigEndian(tag.body)]));
  }

  /** While the properties of s are being read, those in s so far. */
  function During(members: seq<Spec>, s: Spec): State { State(Put(members, s), Some(s.key)) }

  function Extended(s: Spec, properties: seq<nat>): Spec { Spec(s.key, s.properties + properties) }

  lemma PropertyIsRead(value: Octets, read: (nat, State) -> Decoded<seq<Spec>>, p: nat, s: Spec, v: nat,
                       members: seq<Spec>)
    requires Steps(value, read) && v < 0x1_0000_0000 && At(value, p, ContextUnsigned(0, v))
    ensures read(p, During(members, s)) == read(p + |ContextUnsigned(0, v)|, During(members, Extended(s, [v])))
  {
    hide ReadTag, Absorb, BigEndian, Put, ContextUnsigned;
    var body := ReadUnsigned(value, p, 0, v);
    FieldIsProperty(s, members, Tag(0, true, Primitive, body, p + |ContextUnsigned(0, v)|));
  }

  lemma {:induction false} PropertiesAreRead(value: Octets, read: (nat, State) -> Decoded<seq<Spec>>, p: nat, s: Spec,
                                             properties: seq<nat>, members: seq<Spec>)
    requires Steps(value, read) && PropertiesInRange(properties) && At(value, p, EncodeProperties(properties))
    ensures read(p, During(members, s)) ==
            read(p + |EncodeProperties(properties)|, During(members, Extended(s, properties)))
    decreases properties
  {
    if properties == [] {
      assert Extended(s, properties) == s;
    } else {
      var v, rest := properties[0], properties[1..];
      AtParts(value, p, ContextUnsigned(0, v), EncodeProperties(rest));
      PropertyIsRead(value, read, p, s, v, members);
      assert Extended(s, properties).properties == Extended(Extended(s, [v]), rest).properties;
      PropertiesAreRead(value, read, p + |ContextUnsigned(0, v)|, Extended(s, [v]), rest, members);
    }
  }

  lemma BeginsAndEnds(members: seq<Spec>, key: ObjectKey, s: Spec, word: Octets, next: nat)
    requires |word| == 4 && KeyOf(BigEndian(word)) == key == s.key
    ensures var begun := State(Put(members, Spec(key, [])), Some(key));
            && Absorb(State(members, None), Tag(0, true, Primitive, word, next)) == begun
            && Absorb(begun, Tag(1, true, Opening, [], next)) == begun
    ensures Consistent(State(Put(members, s), Some(key)))
    ensures Absorb(State(Put(members, s), Some(key)), Tag(1, true, Closing, [], next)) == State(Put(members, s), None)
  {
    PutFinds(members, s);
  }

  lemma SpecParts(value: Octets, p: nat, s: Spec)
    requires SpecInRange(s) && At(value, p, EncodeSpec(s))
    ensures At(value, p, ContextObjectId(0, s.key)) && |ContextObjectId(0, s.key)| == 5
    ensures At(value, p + 5, OpeningTag(1)) && At(value, p + 6, EncodeProperties(s.properties))
    ensures At(value, p + 6 + |EncodeProperties(s.properties)|, ClosingTag(1))
    ensures |EncodeSpec(s)| == 7 + |EncodeProperties(s.properties)|
  {
    var properties := EncodeProperties(s.properties);
    AtParts(value, p, ContextObjectId(0, s.key), OpeningTag(1) + (properties + ClosingTag(1)));
    AtParts(value, p + 5, OpeningTag(1), properties + ClosingTag(1));
    AtParts(value, p + 6, properties, ClosingTag(1));
  }

  lemma SpecIsRead(value: Octets, read: (nat, State) -> Decoded<seq<Spec>>, p: nat, s: Spec, members: seq<Spec>)
    requires Steps(value, read) && SpecInRange(s) && At(value, p, EncodeSpec(s))
    ensures read(p, State(members, None)) == read(p + |EncodeSpec(s)|, State(Put(members, s), None))
  {
    hide ReadTag, Absorb, EncodeProperties, KeyOf, BigEndian, Put, ContextObjectId;
    var begun, q := Spec(s.key, []), p + 6 + |EncodeProperties(s.properties)|;
    SpecParts(value, p, s);
    var word := ReadObjectId(value, p, 0, s.key);
    BeginsAndEnds(members, s.key, begun, word, p + 5);
    ReadOpening(value, p + 5, 1);
    BeginsAndEnds(members, s.key, begun, word, p + 6);
    assert Extended(begun, s.properties) == s;
    PropertiesAreRead(value, read, p + 6, begun, s.properties, members);
    ReadClosing(value, q, 1);
    BeginsAndEnds(members, s.key, s, word, q + 1);
  }

  lemma {:induction false} SpecsAreRead(value: Octets, read: (nat, State) -> Decoded<seq<Spec>>, p: nat,
                                        list: seq<Spec>,
                                        members: seq<Spec>)
    requires Steps(value, read) && SpecsInRange(list)
    requires At(value, p, EncodeSpecs(list)) && p + |EncodeSpecs(list)| == |value|
    ensures read(p, State(members, None)) == Value(Merged(list, members))
    decreases list
  {
    if list == [] {
    } else {
      AtParts(value, p, EncodeSpec(list[0]), EncodeSpecs(list[1..]));
      SpecIsRead(value, read, p, list[0], members);
      SpecsAreRead(value, read, p + |EncodeSpec(list[0])|, list[1..], Put(members, list[0]));
    }
  }

  lemma SpecsAreMerged(list: seq<Spec>)
    requires SpecsInRange(list)
    ensures ReadSpecs(EncodeSpecs(list), 0, State([], None)) == Value(Merged(list, []))
  {
    var value := EncodeSpecs(list);
    AtItself(value, 0, value);
    ReaderSteps(value);
    SpecsAreRead(value, Reader(value), 0, list, []);
  }

  /** A list of specifications is read back in order, each with its properties in order, exactly when no object is
      specified twice. */
  lemma AccessSpecificationsRoundTrip(list: seq<Spec>)
    requires SpecsInRange(list)
    ensures ReadSpecs(EncodeSpecs(list), 0, State([], None)) == Value(list) <==> Distinct(list)
  {
    SpecsAreMerged(list);
    MergedIsDistinct(list, []);
    if Distinct(list) {
      assert [] + list == list;
      DistinctIsMerged(list, []);
    }
  }
}
