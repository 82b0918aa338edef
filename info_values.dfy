/** The typed value encoder: scalars of the supported types written into the
    `Value` record, lists of them stored under a key of a record's `info`
    map, and read back as a list of the requested type. */
module InfoValues {
  import opened Wrappers

  /** A double-precision number, kept as its bit pattern; nothing here does
      arithmetic on it. */
  datatype Number = Number(bits: bv64)

  /** The `Value` record: at most one of its slots is set. */
  datatype Value =
    | NullValue
    | IntValue(int_value: int)
    | NumberValue(number_value: Number)
    | StringValue(string_value: string)

  datatype ListValue = ListValue(values: seq<Value>)

  /** The element types the encoder supports. */
  datatype ScalarType = IntType | NumberType | StringType

  /** A scalar of one of the supported types. */
  datatype Scalar =
    | IntScalar(i: int)
    | NumberScalar(n: Number)
    | StringScalar(s: string)

  function TypeOf(x: Scalar): ScalarType
  {
    match x
    case IntScalar(_) => IntType
    case NumberScalar(_) => NumberType
    case StringScalar(_) => StringType
  }

  /** The slot of a Value that is set, if it is one of the supported ones. */
  function SlotOf(v: Value): Option<ScalarType>
  {
    match v
    case NullValue => None
    case IntValue(_) => Some(IntType)
    case NumberValue(_) => Some(NumberType)
    case StringValue(_) => Some(StringType)
  }

  /** The Value whose slot for the scalar's type holds the scalar. */
  function Encode(x: Scalar): (v: Value)
    ensures SlotOf(v) == Some(TypeOf(x))
  {
    match x
    case IntScalar(i) => IntValue(i)
    case NumberScalar(n) => NumberValue(n)
    case StringScalar(s) => StringValue(s)
  }

  /** Reads the slot of type `t`; reading any other slot is a caller error. */
  function Decode(t: ScalarType, v: Value): (x: Scalar)
    requires SlotOf(v) == Some(t)
    ensures TypeOf(x) == t
    ensures Encode(x) == v
  {
    match v
    case IntValue(i) => IntScalar(i)
    case NumberValue(n) => NumberScalar(n)
    case StringValue(s) => StringScalar(s)
  }

  /** Decoding what was encoded gives the scalar back. */
  lemma DecodeEncode(x: Scalar)
    ensures Decode(TypeOf(x), Encode(x)) == x
  {
  }

  /** A Value record the caller owns and the encoder writes through. */
  class ValueCell {
    var value: Value

    constructor ()
      ensures value == NullValue
    {
      value := NullValue;
    }

    /** Sets the slot of the scalar's type to the scalar, clearing any other
        slot, as setting one member of a oneof does. */
    method SetValuesValue(x: Scalar)
      modifies this
      ensures value == Encode(x)
      ensures Decode(TypeOf(x), value) == x
    {
      value := Encode(x);
    }
  }

  predicate AllOfType(xs: seq<Scalar>, t: ScalarType)
  {
    forall i :: 0 <= i < |xs| ==> TypeOf(xs[i]) == t
  }

  predicate AllInSlot(vs: seq<Value>, t: ScalarType)
  {
    forall i :: 0 <= i < |vs| ==> SlotOf(vs[i]) == Some(t)
  }

  /** The encodings of a list of scalars, in order. */
  function EncodeAll(xs: seq<Scalar>): (vs: seq<Value>)
    ensures |vs| == |xs|
    ensures forall t :: AllOfType(xs, t) ==> AllInSlot(vs, t)
    decreases |xs|
  {
    if |xs| == 0 then []
    else
      assert forall i :: 0 < i < |xs| ==> xs[i] == xs[1..][i - 1];
      assert forall t :: AllOfType(xs, t) ==> AllOfType(xs[1..], t);
      var vs := [Encode(xs[0])] + EncodeAll(xs[1..]);
      assert forall i :: 0 < i < |vs| ==> vs[i] == EncodeAll(xs[1..])[i - 1];
      vs
  }

  /** The elements of a list, read as type `t`, in order; a list holding an
      element of another type is a caller error. */
  function ListValues(t: ScalarType, list: ListValue): (xs: seq<Scalar>)
    requires AllInSlot(list.values, t)
    ensures |xs| == |list.values|
    ensures AllOfType(xs, t)
    decreases |list.values|
  {
    var vs := list.values;
    if |vs| == 0 then []
    else
      assert forall i :: 0 < i < |vs| ==> vs[i] == vs[1..][i - 1];
      [Decode(t, vs[0])] + ListValues(t, ListValue(vs[1..]))
  }

  /** Decoding an encoded list gives back the same scalars in the same
      order, duplicates included. */
  lemma {:induction false} ListValuesRoundTrip(t: ScalarType, xs: seq<Scalar>)
    requires AllOfType(xs, t)
    ensures AllInSlot(EncodeAll(xs), t)
    ensures ListValues(t, ListValue(EncodeAll(xs))) == xs
    decreases |xs|
  {
    if |xs| > 0 {
      assert AllOfType(xs[1..], t);
      ListValuesRoundTrip(t, xs[1..]);
      assert EncodeAll(xs)[1..] == EncodeAll(xs[1..]);
    }
  }

  /** Encoding the decoded elements of a list gives the list back: nothing
      in a well-typed list is lost by reading it. */
  lemma {:induction false} EncodeAllListValues(t: ScalarType, list: ListValue)
    requires AllInSlot(list.values, t)
    ensures EncodeAll(ListValues(t, list)) == list.values
    decreases |list.values|
  {
    var vs := list.values;
    if |vs| > 0 {
      assert AllInSlot(vs[1..], t);
      EncodeAllListValues(t, ListValue(vs[1..]));
      assert vs == [vs[0]] + vs[1..];
    }
  }

  /** The `info` map of a Variant or VariantCall record. */
  class InfoRecord {
    var info: map<string, ListValue>

    constructor ()
      ensures info == map[]
    {
      info := map[];
    }

    /** Stores the scalars, in order, as the list under `key`, replacing
        whatever the key held; the other keys are untouched. */
    method SetInfoField(key: string, xs: seq<Scalar>)
      modifies this
      ensures info == old(info)[key := ListValue(EncodeAll(xs))]
      ensures forall t :: AllOfType(xs, t) ==> AllInSlot(info[key].values, t) && ListValues(t, info[key]) == xs
    {
      var encoded: seq<Value> := [];
      var i := 0;
      while i < |xs|
        invariant 0 <= i <= |xs|
        invariant encoded == EncodeAll(xs[..i])
        invariant info == old(info)
      {
        EncodeAllAppend(xs[..i], xs[i]);
        assert xs[..i + 1] == xs[..i] + [xs[i]];
        encoded := encoded + [Encode(xs[i])];
        i := i + 1;
      }
      assert xs[..i] == xs;
      info := info[key := ListValue(encoded)];
      forall t | AllOfType(xs, t)
        ensures AllInSlot(info[key].values, t) && ListValues(t, info[key]) == xs
      {
        ListValuesRoundTrip(t, xs);
      }
    }

    /** Stores a single scalar as a one-element list under `key`. */
    method SetInfoFieldScalar(key: string, x: Scalar)
      modifies this
      ensures info == old(info)[key := ListValue([Encode(x)])]
      ensures AllInSlot(info[key].values, TypeOf(x)) && ListValues(TypeOf(x), info[key]) == [x]
    {
      SetInfoField(key, [x]);
      assert AllOfType([x], TypeOf(x));
      assert EncodeAll([x]) == [Encode(x)];
    }
  }

  /** Encoding a list one element more adds that element's encoding at the end. */
  lemma {:induction false} EncodeAllAppend(xs: seq<Scalar>, x: Scalar)
    ensures EncodeAll(xs + [x]) == EncodeAll(xs) + [Encode(x)]
    decreases |xs|
  {
    if |xs| > 0 {
      assert (xs + [x])[1..] == xs[1..] + [x];
      EncodeAllAppend(xs[1..], x);
    }
  }

  /** Setting one key after another keeps both, and setting a key again
      replaces its list: lookups after a sequence of stores see the last
      store to each key. */
  lemma InfoUpdatesCompose(info: map<string, ListValue>, k1: string, k2: string, t: ScalarType, xs: seq<Scalar>, ys: seq<Scalar>)
    requires AllOfType(xs, t) && AllOfType(ys, t)
    ensures var after := info[k1 := ListValue(EncodeAll(xs))][k2 := ListValue(EncodeAll(ys))];
      AllInSlot(after[k2].values, t) && ListValues(t, after[k2]) == ys
      && (k1 != k2 ==> AllInSlot(after[k1].values, t) && ListValues(t, after[k1]) == xs)
  {
    ListValuesRoundTrip(t, xs);
    ListValuesRoundTrip(t, ys);
  }
}
