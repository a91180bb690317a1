/**
 * The part of the HTTP header-field container that the upgrade uses:
 * an ordered list of (field, value) pairs with presence test and `set_field`.
 */
module HeaderFields {
  import opened Wrappers

  /** The header fields the upgrade code names; every other field is kept by name. */
  datatype Field =
    | SecWebSocketAccept
    | SecWebSocketProtocol
    | Upgrade
    | Connection
    | ContentLength
    | OtherField(name: string)

  datatype HeaderField = HeaderField(field: Field, value: string)

  type Fields = seq<HeaderField>

  /** `has_field`: some pair of the set carries the field. */
  predicate HasField(fs: Fields, f: Field)
    ensures HasField(fs, f) <==> exists i :: 0 <= i < |fs| && fs[i].field == f
  {
    fs != [] && (fs[0].field == f || HasField(fs[1..], f))
  }

  /** No field occurs twice. */
  predicate Distinct(fs: Fields)
  {
    fs == [] || (!HasField(fs[1..], fs[0].field) && Distinct(fs[1..]))
  }

  /** The value stored for `f`, if any. */
  function Get(fs: Fields, f: Field): (r: Option<string>)
    ensures r.Some? <==> HasField(fs, f)
    ensures r.Some? ==> HeaderField(f, r.value) in fs
  {
    if fs == [] then None
    else if fs[0].field == f then Some(fs[0].value)
    else Get(fs[1..], f)
  }

  /** Where the first occurrence of `f` stands. */
  function FieldIndex(fs: Fields, f: Field): (i: nat)
    requires HasField(fs, f)
    ensures i < |fs| && fs[i].field == f && !HasField(fs[..i], f)
  {
    if fs[0].field == f then 0
    else
      var j := FieldIndex(fs[1..], f);
      assert fs[..j + 1][1..] == fs[1..][..j];
      j + 1
  }

  /** What `SetField(fs, f, v)` promises about its result `r`. */
  ghost predicate SetFieldSpec(fs: Fields, f: Field, v: string, r: Fields)
  {
    && Get(r, f) == Some(v)
    && (forall g :: g != f ==> HasField(r, g) == HasField(fs, g) && Get(r, g) == Get(fs, g))
    && (HasField(fs, f) ==> |r| == |fs| && r == fs[FieldIndex(fs, f) := HeaderField(f, v)])
    && (!HasField(fs, f) ==> r == fs + [HeaderField(f, v)])
    && (Distinct(fs) ==> Distinct(r))
  }

  /** Presence and lookup in a list with one more pair in front. */
  lemma ConsLookup(x: HeaderField, fs: Fields)
    ensures forall g :: HasField([x] + fs, g) == (x.field == g || HasField(fs, g))
    ensures forall g :: Get([x] + fs, g) == if x.field == g then Some(x.value) else Get(fs, g)
  {
    assert ([x] + fs)[1..] == fs;
  }

  /** Putting a field other than `f` in front of both lists keeps `SetFieldSpec`. */
  lemma SetFieldSpecCons(x: HeaderField, fs: Fields, f: Field, v: string, r: Fields)
    requires x.field != f && SetFieldSpec(fs, f, v, r)
    ensures SetFieldSpec([x] + fs, f, v, [x] + r)
  {
    var fs', r' := [x] + fs, [x] + r;
    ConsLookup(x, fs);
    ConsLookup(x, r);
    assert fs'[1..] == fs && r'[1..] == r;
    if HasField(fs, f) {
      assert FieldIndex(fs', f) == FieldIndex(fs, f) + 1;
      assert r' == fs'[FieldIndex(fs', f) := HeaderField(f, v)];
    } else {
      assert r' == fs' + [HeaderField(f, v)];
    }
    if Distinct(fs') {
      assert Distinct(fs) && !HasField(fs, x.field);
      assert Distinct(r') by {
        assert !HasField(r, x.field);
      }
    }
  }

  /**
   * `set_field`: replaces the value of an existing field where it stands,
   * or appends the field at the end when it is absent.
   */
  function SetField(fs: Fields, f: Field, v: string): (r: Fields)
    ensures Get(r, f) == Some(v)
    ensures forall g :: g != f ==> HasField(r, g) == HasField(fs, g) && Get(r, g) == Get(fs, g)
    ensures HasField(fs, f) ==> |r| == |fs| && r == fs[FieldIndex(fs, f) := HeaderField(f, v)]
    ensures !HasField(fs, f) ==> r == fs + [HeaderField(f, v)]
    ensures Distinct(fs) ==> Distinct(r)
  {
    if fs == [] then
      var r := [HeaderField(f, v)];
      assert r[1..] == [];
      r
    else if fs[0].field == f then
      var r := [HeaderField(f, v)] + fs[1..];
      assert r[1..] == fs[1..];
      assert r == fs[0 := HeaderField(f, v)];
      r
    else
      var rest := SetField(fs[1..], f, v);
      assert SetFieldSpec(fs[1..], f, v, rest);
      SetFieldSpecCons(fs[0], fs[1..], f, v, rest);
      assert fs == [fs[0]] + fs[1..];
      [fs[0]] + rest
  }
}
