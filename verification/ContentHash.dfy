/** The pre-image behind the names of immutable ConfigMaps and Secrets
    (internal/common/config/config.go). A char stands for a byte. */
module ContentHash {
  import opened Wrappers
  import opened Text

  /** A length-prefixed field, "len:text". */
  function Field(s: string): string { Itoa(|s|) + [':'] + s }

  function Entry(k: string, v: string): string { Field(k) + ['='] + Field(v) + ['\n'] }

  function Encode(keys: seq<string>, data: map<string, string>): string
    requires forall k :: k in keys ==> k in data
  {
    if keys == [] then [] else Entry(keys[0], data[keys[0]]) + Encode(keys[1..], data)
  }

  ghost function Preimage(data: map<string, string>): string {
    Encode(SortedKeys(data.Keys), data)
  }

  lemma EncodeFrom(keys: seq<string>, i: nat, data: map<string, string>)
    requires i < |keys| && forall k :: k in keys ==> k in data
    ensures Encode(keys[i..], data) == Entry(keys[i], data[keys[i]]) + Encode(keys[i + 1..], data)
  {
    assert keys[i..][1..] == keys[i + 1..];
  }

  /** The write loop over the sorted keys. */
  method WriteEntries(keys: seq<string>, data: map<string, string>) returns (h: string)
    requires forall k :: k in keys ==> k in data
    ensures h == Encode(keys, data)
  {
    h := [];
    for i := 0 to |keys|
      invariant h + Encode(keys[i..], data) == Encode(keys, data)
    {
      EncodeFrom(keys, i, data);
      var entry := Entry(keys[i], data[keys[i]]);
      assert h + Encode(keys[i..], data) == (h + entry) + Encode(keys[i + 1..], data);
      h := h + entry;
    }
  }

  /** CreateImmutableConfigMap and CreateImmutableSecret up to the digest: keys in
      map order, sorted, written. */
  method WritePreimage(data: map<string, string>) returns (h: string)
    ensures h == Preimage(data)
  {
    var keys := CollectKeys(data);
    SortHidesOrder(keys, data.Keys);
    h := WriteEntries(SortBy(Id, keys), data);
  }

  // ---- the decoder -----------------------------------------------------------------

  /** Reads one field and returns it with what follows. */
  function ReadField(s: string): Option<(string, string)> {
    var i := IndexOf(s, ':');
    if i == |s| || i == 0 || !AllDigits(s[..i]) then None
    else
      var n := Digits(s[..i]);
      if |s| - (i + 1) < n then None else Some((s[i + 1..i + 1 + n], s[i + 1 + n..]))
  }

  function Decode(s: string): Option<map<string, string>>
    decreases |s|
  {
    if s == [] then Some(map[])
    else
      var key := ReadField(s);
      if key.None? || key.value.1 == [] || key.value.1[0] != '=' then None
      else
        var val := ReadField(key.value.1[1..]);
        if val.None? || val.value.1 == [] || val.value.1[0] != '\n' then None
        else
          var rest := Decode(val.value.1[1..]);
          if rest.None? then None else Some(rest.value[key.value.0 := val.value.0])
  }

  /** A field is read back whatever bytes it holds and whatever follows it. */
  lemma ReadOfField(s: string, rest: string)
    ensures ReadField(Field(s) + rest) == Some((s, rest))
  {
    var t := Field(s) + rest;
    assert t == Itoa(|s|) + [':'] + (s + rest);
    IndexOfAt(Itoa(|s|), ':', s + rest);
    var i := |Itoa(|s|)|;
    assert t[..i] == Itoa(|s|);
    DigitsOfItoa(|s|);
    assert t[i + 1..] == s + rest;
    assert t[i + 1..i + 1 + |s|] == s && t[i + 1 + |s|..] == rest;
  }

  lemma DecodeOfEntry(k: string, v: string, rest: string)
    ensures Decode(Entry(k, v) + rest)
         == if Decode(rest).None? then None else Some(Decode(rest).value[k := v])
  {
    var value := Field(v) + (['\n'] + rest);
    var s := Entry(k, v) + rest;
    assert s == Field(k) + (['='] + value);
    ReadOfField(k, ['='] + value);
    assert (['='] + value)[1..] == value;
    ReadOfField(v, ['\n'] + rest);
    assert (['\n'] + rest)[1..] == rest;
  }

  lemma {:induction false} DecodeOfEncode(keys: seq<string>, data: map<string, string>)
    requires forall k :: k in keys ==> k in data
    ensures Decode(Encode(keys, data)) == Some(map k | k in keys :: data[k])
  {
    if keys != [] {
      DecodeOfEntry(keys[0], data[keys[0]], Encode(keys[1..], data));
      DecodeOfEncode(keys[1..], data);
      assert keys == [keys[0]] + keys[1..];
      assert (map x | x in keys :: data[x]) == (map x | x in keys[1..] :: data[x])[keys[0] := data[keys[0]]];
    }
  }

  /** The pre-image is uniquely decodable: what was hashed is read back from it,
      for every map, whatever bytes its keys and values hold. */
  lemma {:induction false} RoundTrip(data: map<string, string>)
    ensures Decode(Preimage(data)) == Some(data)
  {
    DecodeOfEncode(SortedKeys(data.Keys), data);
    assert (map k | k in SortedKeys(data.Keys) :: data[k]) == data;
  }

  /** So maps with one pre-image are one map. */
  lemma {:induction false} Injective(a: map<string, string>, b: map<string, string>)
    requires Preimage(a) == Preimage(b)
    ensures a == b
  {
    RoundTrip(a);
    RoundTrip(b);
  }
}
