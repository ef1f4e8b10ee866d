/** The hand-written JSON scanners the serialisation code is generated
    around: reading an object's `_type`, the next key, and the next value
    of a flat JSON text. A string is a sequence of characters and an index
    counts characters. */
module Json {
  import opened Wrappers

  // ---------------------------------------------------------------------
  // Searching

  /** The first position at or after `from` holding `c`. */
  function FindChar(s: string, c: char, from: nat): (r: Option<nat>)
    requires from <= |s|
    ensures r.Some? ==> from <= r.value < |s| && s[r.value] == c
                        && forall k :: from <= k < r.value ==> s[k] != c
    ensures r.None? ==> forall k :: from <= k < |s| ==> s[k] != c
    decreases |s| - from
  {
    if from == |s| then Option.None
    else if s[from] == c then Some(from)
    else FindChar(s, c, from + 1)
  }

  /** `pat` occurs in `s` at position `i`. */
  predicate OccursAt(s: string, pat: string, i: nat) {
    i + |pat| <= |s| && s[i..i + |pat|] == pat
  }

  /** The first position at or after `from` where `pat` occurs. */
  function FindText(s: string, pat: string, from: nat): (r: Option<nat>)
    requires from <= |s|
    ensures r.Some? ==> from <= r.value && OccursAt(s, pat, r.value)
                        && forall k :: from <= k < r.value ==> !OccursAt(s, pat, k)
    ensures r.None? ==> forall k :: from <= k <= |s| ==> !OccursAt(s, pat, k)
    decreases |s| - from
  {
    if OccursAt(s, pat, from) then Some(from)
    else if from == |s| then Option.None
    else FindText(s, pat, from + 1)
  }

  // ---------------------------------------------------------------------
  // `json_get_type`

  /** What precedes an object's type name. */
  const TypeMarker: string := "\"_type\":\""

  /** `json_get_type`: the text after the first `"_type":"` up to the next
      quote, or nothing when the marker or the closing quote is missing. */
  function GetType(data: string): (r: string)
    ensures '"' !in r
    ensures FindText(data, TypeMarker, 0).None? ==> r == ""
  {
    match FindText(data, TypeMarker, 0)
    case None => ""
    case Some(i) =>
      var after := i + |TypeMarker|;
      match FindChar(data, '"', after)
      case None => ""
      case Some(j) =>
        assert forall k :: 0 <= k < j - after ==> data[after..j][k] == data[after + k];
        data[after..j]
  }

  /** After text without quotes, the first marker is the one that
      follows it. */
  lemma {:induction false} MarkerAfter(pre: string, tail: string)
    requires '"' !in pre
    ensures FindText(pre + TypeMarker + tail, TypeMarker, 0) == Some(|pre|)
  {
    var data := pre + TypeMarker + tail;
    var i := |pre|;
    assert data[i..i + |TypeMarker|] == TypeMarker;
    assert OccursAt(data, TypeMarker, i);
    assert TypeMarker[0] == '"';
    forall k | 0 <= k < i ensures !OccursAt(data, TypeMarker, k) {
      assert data[k] == pre[k];
      assert pre[k] in pre;
      if k + |TypeMarker| <= |data| {
        assert data[k..k + |TypeMarker|][0] == data[k];
      }
    }
  }

  /** A type name written after text without quotes is read back. */
  lemma {:induction false} GetTypeOf(pre: string, name: string, rest: string)
    requires '"' !in pre && '"' !in name
    ensures GetType(pre + TypeMarker + name + "\"" + rest) == name
  {
    var data := pre + TypeMarker + name + "\"" + rest;
    assert data == pre + TypeMarker + (name + "\"" + rest);
    MarkerAfter(pre, name + "\"" + rest);
    var after := |pre| + |TypeMarker|;
    assert data[after..after + |name|] == name;
    forall k | after <= k < after + |name| ensures data[k] != '"' {
      assert data[k] == data[after..after + |name|][k - after];
    }
    assert data[after + |name|] == '"';
    assert FindChar(data, '"', after) == Some(after + |name|);
  }

  /** Without a closing quote after the marker there is no type. */
  lemma {:induction false} GetTypeUnclosed(pre: string, name: string)
    requires '"' !in pre && '"' !in name
    ensures GetType(pre + TypeMarker + name) == ""
  {
    var data := pre + TypeMarker + name;
    MarkerAfter(pre, name);
    var after := |pre| + |TypeMarker|;
    assert data[after..] == name;
    forall k | after <= k < |data| ensures data[k] != '"' {
      assert data[k] == data[after..][k - after];
    }
  }

  // ---------------------------------------------------------------------
  // `json_next_key`

  /** What `json_next_key` returns, as (rest, key): the key is the text
      strictly between the first two quotes and the rest is what follows
      the second; with fewer than two quotes both are empty. */
  function NextKey(data: string): (r: (string, string))
    ensures '"' !in r.1
    ensures r != ("", "") ==> EndsWith(data, "\"" + r.1 + "\"" + r.0)
  {
    match FindChar(data, '"', 0)
    case None => ("", "")
    case Some(q1) =>
      match FindChar(data, '"', q1 + 1)
      case None => ("", "")
      case Some(q2) =>
        var key := data[q1 + 1..q2];
        assert forall k :: 0 <= k < |key| ==> key[k] == data[q1 + 1 + k];
        assert data[q1..] == "\"" + key + "\"" + data[q2 + 1..];
        (data[q2 + 1..], key)
  }

  /** A key written between quotes after text without quotes is read back,
      with what follows it. */
  lemma {:induction false} NextKeyOf(pre: string, key: string, rest: string)
    requires '"' !in pre && '"' !in key
    ensures NextKey(pre + "\"" + key + "\"" + rest) == (rest, key)
  {
    var data := pre + "\"" + key + "\"" + rest;
    var q1 := |pre|;
    var q2 := q1 + 1 + |key|;
    assert data[..q1] == pre && data[q1 + 1..q2] == key;
    forall k | 0 <= k < q1 ensures data[k] != '"' {
      assert data[k] == data[..q1][k];
      assert pre[k] in pre;
    }
    forall k | q1 + 1 <= k < q2 ensures data[k] != '"' {
      assert data[k] == data[q1 + 1..q2][k - q1 - 1];
      assert key[k - q1 - 1] in key;
    }
    assert data[q1] == '"' && data[q2] == '"';
    assert FindChar(data, '"', 0) == Some(q1);
    assert FindChar(data, '"', q1 + 1) == Some(q2);
    assert data[q1 + 1..q2] == key && data[q2 + 1..] == rest;
  }

  /** Two quotes at different places count twice. */
  lemma {:induction false} TwoOccurrences(s: string, c: char, i: nat, j: nat)
    requires i < j < |s| && s[i] == c && s[j] == c
    ensures multiset(s)[c] >= 2
  {
    assert s == s[..j] + s[j..];
    assert s[..j][i] == c && s[j..][0] == c;
    assert multiset(s) == multiset(s[..j]) + multiset(s[j..]);
  }

  /** With fewer than two quotes there is neither key nor rest. */
  lemma {:induction false} NextKeyWithoutTwoQuotes(data: string)
    requires multiset(data)['"'] < 2
    ensures NextKey(data) == ("", "")
  {
    var first := FindChar(data, '"', 0);
    if first.Some? {
      var second := FindChar(data, '"', first.value + 1);
      if second.Some? {
        TwoOccurrences(data, '"', first.value, second.value);
      }
    }
  }

  /** `json_next_key`: its character loop computes `NextKey`. */
  method JsonNextKey(data: string) returns (rest: string, key: string)
    ensures (rest, key) == NextKey(data)
  {
    var keyStart := 0;
    var idx := 0;
    while idx < |data|
      invariant 0 <= idx <= |data|
      invariant keyStart == 0 ==> FindChar(data, '"', 0) == FindChar(data, '"', idx)
      invariant keyStart > 0 ==> FindChar(data, '"', 0) == Some(keyStart - 1) && keyStart <= idx
                                 && FindChar(data, '"', keyStart) == FindChar(data, '"', idx)
    {
      if data[idx] == '"' {
        if keyStart > 0 {
          return data[idx + 1..], data[keyStart..idx];
        }
        keyStart := idx + 1;
      }
      idx := idx + 1;
    }
    return "", "";
  }

  // ---------------------------------------------------------------------
  // `json_next_value`

  /** `s` is what ends `data`. */
  predicate EndsWith(data: string, s: string) {
    |s| <= |data| && data[|data| - |s|..] == s
  }

  /** Characters skipped before a value starts. */
  predicate Skipped(ch: char) {
    ch == ' ' || ch == ':' || ch == ']' || ch == '}' || ch == ','
  }

  predicate Opener(ch: char) {
    ch == '[' || ch == '{'
  }

  predicate Closer(ch: char) {
    ch == ']' || ch == '}'
  }

  /** A character that ends a value: a comma, a quote or a closing bracket. */
  predicate EndsValue(ch: char) {
    ch == ',' || ch == '"' || Closer(ch)
  }

  /** What a value scan hands back: either the value runs to the end of the
      text and nothing is left, or the value, the one character that ended
      it and the rest make up the end of the text. */
  predicate ValueThenRest(data: string, rest: string, value: string) {
    || (rest == "" && EndsWith(data, value))
    || (|value| + |rest| < |data| && EndsValue(data[|data| - |rest| - 1])
        && EndsWith(data, value + [data[|data| - |rest| - 1]] + rest))
  }

  /** The scan of `json_next_value` from position `idx`, with the value
      starting at `valueStart`, `openers` brackets open (the counter may
      go below zero, as the source's signed counter does) and `inValue`
      telling whether the value has started. It hands back (rest, value). */
  function Scan(data: string, idx: nat, valueStart: nat, openers: int, inValue: bool): (string, string)
    requires valueStart <= idx <= |data| || (!inValue && valueStart == 0 && idx <= |data|)
    decreases |data| - idx
  {
    if idx == |data| then ("", data[valueStart..])
    else
      var ch := data[idx];
      if inValue then
        if ch == ',' || ch == '"' then
          if openers == 0 then (data[idx + 1..], data[valueStart..idx])
          else Scan(data, idx + 1, valueStart, openers, true)
        else if Opener(ch) then Scan(data, idx + 1, valueStart, openers + 1, true)
        else if Closer(ch) then
          if openers - 1 == 0 then (data[idx + 1..], data[valueStart..idx])
          else Scan(data, idx + 1, valueStart, openers - 1, true)
        else Scan(data, idx + 1, valueStart, openers, true)
      else if Skipped(ch) then Scan(data, idx + 1, valueStart, openers, false)
      else if ch == '"' then Scan(data, idx + 1, idx + 1, openers, true)
      else if Opener(ch) then Scan(data, idx + 1, idx + 1, openers + 1, true)
      else Scan(data, idx + 1, idx, openers, true)
  }

  /** Wherever the scan stops, it hands back a value and what follows it. */
  lemma {:induction false} ScanEnds(data: string, idx: nat, valueStart: nat, openers: int, inValue: bool)
    requires valueStart <= idx <= |data| || (!inValue && valueStart == 0 && idx <= |data|)
    ensures var (rest, value) := Scan(data, idx, valueStart, openers, inValue);
      ValueThenRest(data, rest, value)
    decreases |data| - idx
  {
    if idx < |data| {
      var ch := data[idx];
      if inValue {
        if ((ch == ',' || ch == '"') && openers == 0) || (Closer(ch) && openers - 1 == 0) {
          assert data[valueStart..idx] + [ch] + data[idx + 1..] == data[valueStart..];
        } else if Opener(ch) {
          ScanEnds(data, idx + 1, valueStart, openers + 1, true);
        } else if Closer(ch) {
          ScanEnds(data, idx + 1, valueStart, openers - 1, true);
        } else {
          ScanEnds(data, idx + 1, valueStart, openers, true);
        }
      } else if Skipped(ch) {
        ScanEnds(data, idx + 1, valueStart, openers, false);
      } else if ch == '"' {
        ScanEnds(data, idx + 1, idx + 1, openers, true);
      } else if Opener(ch) {
        ScanEnds(data, idx + 1, idx + 1, openers + 1, true);
      } else {
        ScanEnds(data, idx + 1, idx, openers, true);
      }
    }
  }

  /** What `json_next_value` returns, as (rest, value): a value and what
      follows it. */
  function NextValue(data: string): (r: (string, string))
    ensures ValueThenRest(data, r.0, r.1)
  {
    ScanEnds(data, 0, 0, 0, false);
    Scan(data, 0, 0, 0, false)
  }

  /** `json_next_value`: its character loop computes `NextValue`. */
  method JsonNextValue(data: string) returns (rest: string, value: string)
    ensures (rest, value) == NextValue(data)
  {
    var valueStart := 0;
    var openers := 0;
    var inValue := false;
    var idx := 0;
    while idx < |data|
      invariant 0 <= idx <= |data|
      invariant valueStart <= idx || (!inValue && valueStart == 0)
      invariant Scan(data, idx, valueStart, openers, inValue) == NextValue(data)
    {
      var ch := data[idx];
      if inValue {
        if ch == ',' || ch == '"' {
          if openers == 0 {
            return data[idx + 1..], data[valueStart..idx];
          }
        } else if ch == '[' || ch == '{' {
          openers := openers + 1;
        } else if ch == ']' || ch == '}' {
          openers := openers - 1;
          if openers == 0 {
            return data[idx + 1..], data[valueStart..idx];
          }
        }
      } else if ch != ' ' && ch != ':' && ch != ']' && ch != '}' && ch != ',' {
        if ch == '"' || ch == '[' || ch == '{' {
          if ch == '[' || ch == '{' {
            openers := openers + 1;
          }
          valueStart := idx + 1;
        } else {
          valueStart := idx;
        }
        inValue := true;
      }
      idx := idx + 1;
    }
    return "", data[valueStart..];
  }

  /** A run of characters that neither ends a value nor opens or closes
      brackets. */
  predicate Plain(v: string) {
    forall k :: 0 <= k < |v| ==> v[k] != ',' && v[k] != '"' && !Opener(v[k]) && !Closer(v[k])
  }

  /** Inside a value with no bracket open, plain characters run on until
      the first comma or quote, which ends the value. */
  lemma {:induction false} ScanPlain(data: string, idx: nat, valueStart: nat, v: string)
    requires valueStart <= idx && idx + |v| < |data|
    requires data[idx..idx + |v|] == v && Plain(v)
    requires data[idx + |v|] == ',' || data[idx + |v|] == '"'
    ensures Scan(data, idx, valueStart, 0, true) == (data[idx + |v| + 1..], data[valueStart..idx + |v|])
    decreases |v|
  {
    if v != [] {
      assert data[idx] == v[0];
      assert data[idx + 1..idx + 1 + |v[1..]|] == v[1..];
      ScanPlain(data, idx + 1, valueStart, v[1..]);
    }
  }

  /** Inside a value with no bracket open, plain characters run on to the
      end of the text, which ends the value. */
  lemma {:induction false} ScanPlainToEnd(data: string, idx: nat, valueStart: nat)
    requires valueStart <= idx <= |data| && Plain(data[idx..])
    ensures Scan(data, idx, valueStart, 0, true) == ("", data[valueStart..])
    decreases |data| - idx
  {
    if idx < |data| {
      assert data[idx] == data[idx..][0];
      assert data[idx + 1..] == data[idx..][1..];
      ScanPlainToEnd(data, idx + 1, valueStart);
    }
  }

  /** A quoted string without commas, quotes or brackets is read back
      without its quotes, and the rest starts after the closing quote. */
  lemma {:induction false} NextValueQuoted(v: string, rest: string)
    requires Plain(v)
    ensures NextValue("\"" + v + "\"" + rest) == (rest, v)
  {
    var data := "\"" + v + "\"" + rest;
    assert data[1..1 + |v|] == v && data[1 + |v|] == '"';
    ScanPlain(data, 1, 1, v);
    assert data[2 + |v|..] == rest && data[1..1 + |v|] == v;
  }

  /** A bare value (a number, `true`) is read up to the comma or quote
      that ends it, which is not part of the value or of the rest. */
  lemma {:induction false} NextValueBare(v: string, stop: char, rest: string)
    requires |v| > 0 && !Skipped(v[0]) && Plain(v)
    requires stop == ',' || stop == '"'
    ensures NextValue(v + [stop] + rest) == (rest, v)
  {
    var data := v + [stop] + rest;
    assert data[0] == v[0];
    assert data[1..1 + |v[1..]|] == v[1..] && data[|v|] == stop;
    ScanPlain(data, 1, 0, v[1..]);
    assert data[|v| + 1..] == rest && data[0..|v|] == v;
  }

  /** The last bare value of a text is all of what is left. */
  lemma {:induction false} NextValueLast(v: string)
    requires |v| > 0 && !Skipped(v[0]) && Plain(v)
    ensures NextValue(v) == ("", v)
  {
    ScanPlainToEnd(v, 1, 0);
  }

  /** The change a character makes to the bracket counter. */
  function Delta(ch: char): int {
    if Opener(ch) then 1 else if Closer(ch) then -1 else 0
  }

  /** Read with `openers` brackets open, `v` never closes the outermost
      one and leaves exactly it open at the end. */
  predicate Nested(v: string, openers: int)
    decreases |v|
  {
    if v == [] then openers == 1
    else openers + Delta(v[0]) >= 1 && Nested(v[1..], openers + Delta(v[0]))
  }

  /** Inside brackets, commas and quotes do not end the value; it ends
      where the closing bracket brings the counter back to zero. */
  lemma {:induction false} ScanNested(data: string, idx: nat, valueStart: nat, openers: int, v: string)
    requires valueStart <= idx && idx + |v| < |data|
    requires data[idx..idx + |v|] == v && Nested(v, openers) && openers >= 1
    requires Closer(data[idx + |v|])
    ensures Scan(data, idx, valueStart, openers, true) == (data[idx + |v| + 1..], data[valueStart..idx + |v|])
    decreases |v|
  {
    if v != [] {
      assert data[idx] == v[0];
      assert data[idx + 1..idx + 1 + |v[1..]|] == v[1..];
      ScanNested(data, idx + 1, valueStart, openers + Delta(v[0]), v[1..]);
    }
  }

  /** A bracketed list or object is read back without its outer
      brackets, counting nested brackets, and the rest starts just after
      the matching close bracket. */
  lemma {:induction false} NextValueBracketed(open: char, v: string, close: char, rest: string)
    requires Opener(open) && Closer(close) && Nested(v, 1)
    ensures NextValue([open] + v + [close] + rest) == (rest, v)
  {
    var data := [open] + v + [close] + rest;
    assert data[1..1 + |v|] == v && data[1 + |v|] == close;
    ScanNested(data, 1, 1, 1, v);
    assert data[2 + |v|..] == rest && data[1..1 + |v|] == v;
  }

  /** Moving the whole scan one character to the right, inside a value. */
  lemma {:induction false} ShiftInValue(c: char, data: string, idx: nat, valueStart: nat, openers: int)
    requires valueStart <= idx <= |data|
    ensures Scan([c] + data, idx + 1, valueStart + 1, openers, true) == Scan(data, idx, valueStart, openers, true)
    decreases |data| - idx
  {
    var shifted := [c] + data;
    assert shifted[idx + 1..] == data[idx..];
    assert shifted[valueStart + 1..] == data[valueStart..];
    if idx < |data| {
      assert shifted[idx + 1] == data[idx];
      assert shifted[idx + 2..] == data[idx + 1..];
      assert shifted[valueStart + 1..idx + 1] == data[valueStart..idx];
      ShiftInValue(c, data, idx + 1, valueStart, openers + 1);
      ShiftInValue(c, data, idx + 1, valueStart, openers - 1);
      ShiftInValue(c, data, idx + 1, valueStart, openers);
    }
  }

  /** Moving the scan one character to the right before the value starts,
      when a value does start. */
  lemma {:induction false} ShiftBeforeValue(c: char, data: string, idx: nat, openers: int)
    requires idx < |data| && exists k :: idx <= k < |data| && !Skipped(data[k])
    ensures Scan([c] + data, idx + 1, 0, openers, false) == Scan(data, idx, 0, openers, false)
    decreases |data| - idx
  {
    var shifted := [c] + data;
    assert shifted[idx + 1] == data[idx];
    var ch := data[idx];
    if Skipped(ch) {
      ShiftBeforeValue(c, data, idx + 1, openers);
    } else if ch == '"' {
      ShiftInValue(c, data, idx + 1, idx + 1, openers);
    } else if Opener(ch) {
      ShiftInValue(c, data, idx + 1, idx + 1, openers + 1);
    } else {
      ShiftInValue(c, data, idx + 1, idx, openers);
    }
  }

  /** A leading space, colon, comma or close bracket is skipped, as long
      as a value follows somewhere. */
  lemma {:induction false} NextValueSkips(c: char, data: string)
    requires Skipped(c) && exists k :: 0 <= k < |data| && !Skipped(data[k])
    ensures NextValue([c] + data) == NextValue(data)
  {
    ShiftBeforeValue(c, data, 0, 0);
  }

  /** A text with no value in it gives no rest and the whole text back as
      the value. */
  lemma {:induction false} NextValueNothing(data: string)
    requires forall k :: 0 <= k < |data| ==> Skipped(data[k])
    ensures NextValue(data) == ("", data)
  {
    var idx := 0;
    while idx < |data|
      invariant 0 <= idx <= |data|
      invariant Scan(data, idx, 0, 0, false) == NextValue(data)
    {
      idx := idx + 1;
    }
  }

  // ---------------------------------------------------------------------
  // `String` serialisation

  /** `JsonSerializer for String`: the text in quotes, as it is. */
  function SerializeString(s: string): (r: string)
    ensures |r| == |s| + 2 && r[0] == '"' && r[|r| - 1] == '"' && r[1..|r| - 1] == s
  {
    "\"" + s + "\""
  }

  /** `JsonDeserializer for String`: the text as it is; it never fails. */
  function DeserializeString(json: string): (r: Result<string, string>)
    ensures r.Success? && r.value == json
  {
    Success(json)
  }

  /** The two are not inverses: the quotes stay. A serialised string is
      read back through `json_next_value`, which strips them. */
  lemma {:induction false} StringRoundTrip(s: string, rest: string)
    requires Plain(s)
    ensures DeserializeString(SerializeString(s)) != Success(s)
    ensures DeserializeString(NextValue(SerializeString(s) + rest).1) == Success(s)
  {
    NextValueQuoted(s, rest);
    assert SerializeString(s) + rest == "\"" + s + "\"" + rest;
  }
}
