/** Recursive masking of personal data (libs/kernel/tenant/src/lib/residency-policy.util.ts, maskPiiPayload; the
    audit subscriber's deepCloneAndMask in libs/kernel/audit/src/lib/subscribers/data-audit.subscriber.ts is the same
    recursion with its own marker). */
module PiiMask {

  const REPLICATION_LABEL := "[MASKED_FOR_CROSS_REGION_REPLICATION]"
  const AUDIT_LABEL := "[MASKED_FOR_COMPLIANCE]"
  const AUDIT_FIELDS: seq<string> := ["email", "password", "token", "secret", "card", "phone", "address", "ssn"]

  /** A payload. `Date` stands for any object without enumerable keys of its own. */
  datatype Json =
    | Null | Undefined | Boolean(b: bool) | Number(n: real) | Text(text: string) | Date(ms: int)
    | List(items: seq<Json>)
    | Object(members: seq<(string, Json)>)

  predicate OccursAt(s: string, part: string, i: nat) {
    i <= |s| - |part| && s[i..i + |part|] == part
  }

  predicate Includes(s: string, part: string) {
    exists i :: 0 <= i <= |s| && OccursAt(s, part, i)
  }

  /** Some field occurs in the key, both in lower case; `lower` is the language's conversion. */
  function NamesPii(piiFields: seq<string>, lower: string -> string): string -> bool {
    key => exists f :: f in piiFields && Includes(lower(key), lower(f))
  }

  /** The audit subscriber's fields are written in lower case and compared as they are. */
  function NamesAudited(lower: string -> string): string -> bool {
    key => exists f :: f in AUDIT_FIELDS && Includes(lower(key), f)
  }

  /** A part occurs exactly when the text can be cut around it. */
  lemma IncludesIff(s: string, part: string)
    ensures Includes(s, part) <==> exists front, back :: s == front + part + back
  {
    if Includes(s, part) {
      var i :| 0 <= i <= |s| && OccursAt(s, part, i);
      assert s == s[..i] + part + s[i + |part|..];
    }
    forall front, back | s == front + part + back ensures Includes(s, part) {
      assert OccursAt(s, part, |front|);
    }
  }

  /** `isPii` tells the keys to mask. */
  function Mask(payload: Json, isPii: string -> bool, marker: string): Json {
    match payload
    case List(items) => List(seq(|items|, i requires 0 <= i < |items| => Mask(items[i], isPii, marker)))
    case Object(members) =>
      Object(seq(|members|, i requires 0 <= i < |members| =>
        (members[i].0, if isPii(members[i].0) then Text(marker) else Mask(members[i].1, isPii, marker))))
    case Date(_) => Object([])
    case _ => payload
  }

  method MaskPiiPayload(payload: Json, piiFields: seq<string>, lower: string -> string) returns (result: Json)
    ensures result == Mask(payload, NamesPii(piiFields, lower), REPLICATION_LABEL)
  {
    result := MaskWith(payload, NamesPii(piiFields, lower), REPLICATION_LABEL);
  }

  method DeepCloneAndMask(payload: Json, lower: string -> string) returns (result: Json)
    ensures result == Mask(payload, NamesAudited(lower), AUDIT_LABEL)
  {
    result := MaskWith(payload, NamesAudited(lower), AUDIT_LABEL);
  }

  /** The recursion both maskers share. */
  method MaskWith(payload: Json, isPii: string -> bool, marker: string) returns (result: Json)
    ensures result == Mask(payload, isPii, marker)
    decreases payload
  {
    match payload
    case List(items) =>
      var masked: seq<Json> := [];
      for k := 0 to |items|
        invariant masked == Mask(payload, isPii, marker).items[..k]
      {
        var item := MaskWith(items[k], isPii, marker);
        masked := masked + [item];
      }
      result := List(masked);
    case Object(members) =>
      var masked: seq<(string, Json)> := [];
      for k := 0 to |members|
        invariant masked == Mask(payload, isPii, marker).members[..k]
      {
        var (key, value) := members[k];
        if isPii(key) {
          masked := masked + [(key, Text(marker))];
        } else {
          var inner := MaskWith(value, isPii, marker);
          masked := masked + [(key, inner)];
        }
      }
      result := Object(masked);
    case Date(_) => result := Object([]);
    case _ => result := payload;
  }

  predicate Blank(payload: Json) {
    payload.Date? || payload == Object([])
  }

  /** The payloads have the same shape, keys and leaves, except for what stands beneath a PII key. */
  predicate SameOutsidePii(a: Json, b: Json, isPii: string -> bool)
    decreases a
  {
    if Blank(a) || Blank(b) then Blank(a) && Blank(b)
    else if a.List? && b.List? then
      |a.items| == |b.items| && forall i :: 0 <= i < |a.items| ==> SameOutsidePii(a.items[i], b.items[i], isPii)
    else if a.Object? && b.Object? then
      |a.members| == |b.members| &&
      forall i :: 0 <= i < |a.members| ==>
        && a.members[i].0 == b.members[i].0
        && (isPii(a.members[i].0) || SameOutsidePii(a.members[i].1, b.members[i].1, isPii))
    else a == b
  }

  /** Under every PII key stands the marker and nothing else. */
  predicate Masked(payload: Json, isPii: string -> bool, marker: string) {
    match payload
    case List(items) => forall i :: 0 <= i < |items| ==> Masked(items[i], isPii, marker)
    case Object(members) =>
      forall i :: 0 <= i < |members| ==>
        if isPii(members[i].0) then members[i].1 == Text(marker) else Masked(members[i].1, isPii, marker)
    case Date(_) => false
    case _ => true
  }

  /** The mask of a payload is the one masked payload that equals it outside PII. */
  lemma {:induction false} MaskIsTheMaskedTwin(payload: Json, result: Json, isPii: string -> bool, marker: string)
    ensures result == Mask(payload, isPii, marker) <==>
        Masked(result, isPii, marker) && SameOutsidePii(payload, result, isPii)
    decreases payload
  {
    var mask := Mask(payload, isPii, marker);
    match payload
    case List(items) =>
      if result.List? && |result.items| == |items| {
        forall i | 0 <= i < |items|
          ensures result.items[i] == mask.items[i] <==>
                  Masked(result.items[i], isPii, marker) && SameOutsidePii(items[i], result.items[i], isPii)
        {
          MaskIsTheMaskedTwin(items[i], result.items[i], isPii, marker);
        }
        assert result == mask <==> forall i :: 0 <= i < |items| ==> result.items[i] == mask.items[i];
      }
    case Object(members) =>
      if result.Object? && |result.members| == |members| && |members| > 0 {
        forall i | 0 <= i < |members|
          ensures result.members[i] == mask.members[i] <==>
                  && result.members[i].0 == members[i].0
                  && if isPii(members[i].0) then result.members[i].1 == Text(marker)
                     else
                       && Masked(result.members[i].1, isPii, marker)
                       && SameOutsidePii(members[i].1, result.members[i].1, isPii)
        {
          MaskIsTheMaskedTwin(members[i].1, result.members[i].1, isPii, marker);
        }
        assert result == mask <==> forall i :: 0 <= i < |members| ==> result.members[i] == mask.members[i];
      }
    case _ =>
  }

  /** Noninterference, both ways: two payloads mask alike exactly when they differ only beneath PII keys. */
  lemma {:induction false} MasksAgreeIffSameOutsidePii(a: Json, b: Json, isPii: string -> bool, marker: string)
    ensures Mask(a, isPii, marker) == Mask(b, isPii, marker) <==> SameOutsidePii(a, b, isPii)
    decreases a
  {
    var x, y := Mask(a, isPii, marker), Mask(b, isPii, marker);
    if a.List? && b.List? && |a.items| == |b.items| {
      forall i | 0 <= i < |a.items|
        ensures x.items[i] == y.items[i] <==> SameOutsidePii(a.items[i], b.items[i], isPii)
      {
        MasksAgreeIffSameOutsidePii(a.items[i], b.items[i], isPii, marker);
      }
      assert x == y <==> forall i :: 0 <= i < |a.items| ==> x.items[i] == y.items[i];
    } else if a.Object? && b.Object? && |a.members| == |b.members| {
      forall i | 0 <= i < |a.members|
        ensures x.members[i] == y.members[i] <==>
                && a.members[i].0 == b.members[i].0
                && (isPii(a.members[i].0) || SameOutsidePii(a.members[i].1, b.members[i].1, isPii))
      {
        MasksAgreeIffSameOutsidePii(a.members[i].1, b.members[i].1, isPii, marker);
      }
      assert x == y <==> forall i :: 0 <= i < |a.members| ==> x.members[i] == y.members[i];
    }
  }

  lemma SameAsItself(a: Json, isPii: string -> bool)
    ensures SameOutsidePii(a, a, isPii)
  {
    MasksAgreeIffSameOutsidePii(a, a, isPii, "");
  }

  /** Masking is idempotent, and leaves exactly the masked payloads alone. */
  lemma MaskedIffUnchanged(payload: Json, isPii: string -> bool, marker: string)
    ensures Mask(payload, isPii, marker) == payload <==> Masked(payload, isPii, marker)
    ensures var mask := Mask(payload, isPii, marker);
            Mask(mask, isPii, marker) == mask
  {
    var mask := Mask(payload, isPii, marker);
    SameAsItself(payload, isPii);
    SameAsItself(mask, isPii);
    MaskIsTheMaskedTwin(payload, payload, isPii, marker);
    MaskIsTheMaskedTwin(payload, mask, isPii, marker);
    MaskIsTheMaskedTwin(mask, mask, isPii, marker);
  }

  /** Masking with one test after another is masking once with both. */
  lemma {:induction false} MaskTwiceIsMaskOnce(payload: Json, a: string -> bool, b: string -> bool,
                                               both: string -> bool, marker: string)
    requires forall key :: both(key) <==> a(key) || b(key)
    ensures Mask(Mask(payload, a, marker), b, marker) == Mask(payload, both, marker)
    decreases payload
  {
    var once, twice := Mask(payload, both, marker), Mask(Mask(payload, a, marker), b, marker);
    match payload
    case List(items) =>
      forall i | 0 <= i < |items| ensures twice.items[i] == once.items[i] {
        MaskTwiceIsMaskOnce(items[i], a, b, both, marker);
      }
      assert twice.items == once.items;
    case Object(members) =>
      forall i | 0 <= i < |members| ensures twice.members[i] == once.members[i] {
        var mid := Mask(payload, a, marker).members[i];
        assert mid.0 == members[i].0;
        assert twice.members[i] == (mid.0, if b(mid.0) then Text(marker) else Mask(mid.1, b, marker));
        MaskTwiceIsMaskOnce(members[i].1, a, b, both, marker);
      }
      assert twice.members == once.members;
    case _ =>
  }

  /** So masking with one field list and then another is masking once with both lists. */
  lemma MaskWithBothLists(payload: Json, a: seq<string>, b: seq<string>, lower: string -> string, marker: string)
    ensures Mask(Mask(payload, NamesPii(a, lower), marker), NamesPii(b, lower), marker) ==
        Mask(payload, NamesPii(a + b, lower), marker)
  {
    forall key ensures NamesPii(a + b, lower)(key) <==> NamesPii(a, lower)(key) || NamesPii(b, lower)(key) {
      assert forall f :: f in a + b <==> f in a || f in b;
    }
    MaskTwiceIsMaskOnce(payload, NamesPii(a, lower), NamesPii(b, lower), NamesPii(a + b, lower), marker);
  }

  // ----- which keys are masked -----

  /** The conversion of the letters from A to Z, as both maskers see them. */
  function LowerAscii(s: string): string {
    seq(|s|, i requires 0 <= i < |s| => if 'A' <= s[i] <= 'Z' then s[i] - 'A' + 'a' else s[i])
  }

  lemma LowerOfTwo(front: string, back: string)
    ensures LowerAscii(front + back) == LowerAscii(front) + LowerAscii(back)
  {
  }

  lemma LowerOfConcat(front: string, part: string, back: string)
    ensures LowerAscii(front + part + back) == LowerAscii(front) + LowerAscii(part) + LowerAscii(back)
  {
    LowerOfTwo(front + part, back);
    LowerOfTwo(front, part);
  }

  /** A member is masked exactly when some field stands anywhere in its key, both in lower case; any other keeps its
      key and has its value masked in turn. */
  lemma MaskedMemberIff(members: seq<(string, Json)>, i: nat, piiFields: seq<string>, lower: string -> string)
    requires i < |members|
    ensures var (key, value) := members[i];
            var mask := Mask(Object(members), NamesPii(piiFields, lower), REPLICATION_LABEL).members[i];
            var named := exists f, front, back :: f in piiFields && lower(key) == front + lower(f) + back;
      mask == (key, if named then Text("[MASKED_FOR_CROSS_REGION_REPLICATION]")
                    else Mask(value, NamesPii(piiFields, lower), REPLICATION_LABEL))
  {
    var key := members[i].0;
    forall f | f in piiFields
      ensures Includes(lower(key), lower(f)) <==> exists front, back :: lower(key) == front + lower(f) + back
    {
      IncludesIff(lower(key), lower(f));
    }
  }

  /** The audit log's label stands in place of what is masked there. */
  lemma AuditedMember(members: seq<(string, Json)>, i: nat, lower: string -> string)
    requires i < |members|
    ensures var (key, value) := members[i];
            var mask := Mask(Object(members), NamesAudited(lower), AUDIT_LABEL).members[i];
      mask == (key, if NamesAudited(lower)(key) then Text("[MASKED_FOR_COMPLIANCE]")
                    else Mask(value, NamesAudited(lower), AUDIT_LABEL))
  {
  }

  /** So a field inside a key is found in any case, whatever stands before and behind it. */
  lemma FieldIsFoundInAnyCase(front: string, part: string, back: string, piiFields: seq<string>, f: string)
    requires f in piiFields && LowerAscii(part) == LowerAscii(f)
    ensures NamesPii(piiFields, LowerAscii)(front + part + back)
  {
    LowerOfConcat(front, part, back);
    IncludesIff(LowerAscii(front + part + back), LowerAscii(f));
  }

  /** The audit log masks whatever speaks of these eight, in any case. */
  lemma AuditedFieldIsFound(front: string, part: string, back: string)
    requires LowerAscii(part) in {"email", "password", "token", "secret", "card", "phone", "address", "ssn"}
    ensures NamesAudited(LowerAscii)(front + part + back)
  {
    var f := LowerAscii(part);
    assert f in AUDIT_FIELDS;
    LowerOfConcat(front, part, back);
    IncludesIff(LowerAscii(front + part + back), f);
  }
}
