/** Tag lists as EC2 returns and accepts them: ordered `{'Key': ..., 'Value': ...}` pairs. */
module Tags {
  import opened Wrappers
  import opened Text

  datatype Tag = Tag(key: string, value: string)

  /** Keys in this namespace are reserved by AWS and cannot be set by a caller. */
  const ReservedPrefix := "aws:"
  /** The prefix put in front of a reserved key so that it can be copied. */
  const RenamePrefix := "internal-"

  /** `[t.get('Value') for t in tags if t['Key'] == key]`: every matching value, in list order. */
  function ValuesOf(tags: seq<Tag>, key: string): (vs: seq<string>)
    ensures |vs| <= |tags|
  {
    if tags == [] then []
    else (if tags[0].key == key then [tags[0].value] else []) + ValuesOf(tags[1..], key)
  }

  /** `i` is the position of the first tag whose key is `key`. */
  predicate IsFirstWithKey(tags: seq<Tag>, key: string, i: int)
  {
    0 <= i < |tags| && tags[i].key == key && forall j :: 0 <= j < i ==> tags[j].key != key
  }

  /** The comprehension is empty exactly when no tag has the key, and otherwise starts with the first match's value. */
  lemma {:induction false} ValuesOfFirst(tags: seq<Tag>, key: string)
    ensures ValuesOf(tags, key) == [] <==> forall i :: 0 <= i < |tags| ==> tags[i].key != key
    ensures ValuesOf(tags, key) != [] ==> exists i :: IsFirstWithKey(tags, key, i) && tags[i].value == ValuesOf(tags, key)[0]
  {
    if tags != [] {
      ValuesOfFirst(tags[1..], key);
      if tags[0].key == key {
        assert IsFirstWithKey(tags, key, 0);
      } else if ValuesOf(tags[1..], key) != [] {
        var i :| IsFirstWithKey(tags[1..], key, i) && tags[1..][i].value == ValuesOf(tags[1..], key)[0];
        assert IsFirstWithKey(tags, key, i + 1);
      } else {
        forall i | 0 <= i < |tags| ensures tags[i].key != key {
          if i > 0 {
            assert tags[i] == tags[1..][i - 1];
          }
        }
      }
    }
  }

  /** A value is in the comprehension exactly when some tag carries it under the key. */
  lemma {:induction false} ValuesOfMembers(tags: seq<Tag>, key: string)
    ensures forall v :: v in ValuesOf(tags, key) <==> exists i :: 0 <= i < |tags| && tags[i].key == key && tags[i].value == v
  {
    if tags != [] {
      ValuesOfMembers(tags[1..], key);
      forall v ensures v in ValuesOf(tags, key) <==> exists i :: 0 <= i < |tags| && tags[i].key == key && tags[i].value == v {
        if v in ValuesOf(tags[1..], key) {
          var i :| 0 <= i < |tags[1..]| && tags[1..][i].key == key && tags[1..][i].value == v;
          assert tags[i + 1] == tags[1..][i];
        }
        if exists i :: 0 <= i < |tags| && tags[i].key == key && tags[i].value == v {
          var i :| 0 <= i < |tags| && tags[i].key == key && tags[i].value == v;
          if i > 0 {
            assert tags[1..][i - 1] == tags[i];
          }
        }
      }
    }
  }

  /**
   * `[t.get('Value') for t in tags if t['Key'] == key][0]` with the IndexError caught:
   * the value of the first tag carrying the key, None when no tag does.
   */
  function FirstValue(tags: seq<Tag>, key: string): (r: Option<string>)
    ensures r.None? <==> forall i :: 0 <= i < |tags| ==> tags[i].key != key
    ensures r.Some? ==> exists i :: IsFirstWithKey(tags, key, i) && tags[i].value == r.value
  {
    ValuesOfFirst(tags, key);
    var vs := ValuesOf(tags, key);
    if vs == [] then None else Some(vs[0])
  }

  /**
   * The tag as it may be resubmitted: a key in the reserved namespace gets the rename
   * prefix in front of it; the value, and every other tag, are unchanged.
   */
  function SanitizeTag(t: Tag): (r: Tag)
    ensures r.value == t.value
    ensures !StartsWith(r.key, ReservedPrefix)
    ensures r.key == (if StartsWith(t.key, ReservedPrefix) then RenamePrefix + t.key else t.key)
  {
    if StartsWith(t.key, ReservedPrefix) then
      var renamed := RenamePrefix + t.key;
      assert renamed[0] != ReservedPrefix[0];
      Tag(renamed, t.value)
    else t
  }

  /** A whole tag list made safe to resubmit, position by position. */
  function Sanitized(tags: seq<Tag>): seq<Tag>
  {
    seq(|tags|, i requires 0 <= i < |tags| => SanitizeTag(tags[i]))
  }

  /** A sanitized tag is already safe: sanitizing it again changes nothing. */
  lemma SanitizeTagIdempotent(t: Tag)
    ensures SanitizeTag(SanitizeTag(t)) == SanitizeTag(t)
  {
  }

  /** Sanitizing twice is sanitizing once: no key is renamed twice. */
  lemma SanitizedIdempotent(tags: seq<Tag>)
    ensures Sanitized(Sanitized(tags)) == Sanitized(tags)
  {
    forall i | 0 <= i < |tags| ensures Sanitized(Sanitized(tags))[i] == Sanitized(tags)[i] {
      SanitizeTagIdempotent(tags[i]);
    }
  }

  /** Sanitizing distributes over concatenation. */
  lemma SanitizedAppend(a: seq<Tag>, b: seq<Tag>)
    ensures Sanitized(a + b) == Sanitized(a) + Sanitized(b)
  {
  }

  /** After sanitizing, the value under a key that is not reserved and not renamed is the one the original list had under it. */
  lemma {:induction false} FirstValueSanitized(tags: seq<Tag>, key: string)
    requires !StartsWith(key, ReservedPrefix) && !StartsWith(key, RenamePrefix)
    ensures FirstValue(Sanitized(tags), key) == FirstValue(tags, key)
  {
    var s := Sanitized(tags);
    forall i | 0 <= i < |tags| ensures (s[i].key == key <==> tags[i].key == key) && s[i].value == tags[i].value {
      if StartsWith(tags[i].key, ReservedPrefix) {
        assert s[i].key[..|RenamePrefix|] == RenamePrefix;
      }
    }
    var r, q := FirstValue(s, key), FirstValue(tags, key);
    if r.Some? {
      var i :| IsFirstWithKey(s, key, i) && s[i].value == r.value;
      var j :| IsFirstWithKey(tags, key, j) && tags[j].value == q.value;
      assert IsFirstWithKey(tags, key, i);
    }
  }

  /** In a concatenation the first list's value wins; the second is consulted only when the first has no tag with the key. */
  lemma FirstValueAppend(a: seq<Tag>, b: seq<Tag>, key: string)
    ensures FirstValue(a + b, key) == if FirstValue(a, key).Some? then FirstValue(a, key) else FirstValue(b, key)
  {
    var ab := a + b;
    if FirstValue(a, key).Some? {
      var i :| IsFirstWithKey(a, key, i) && a[i].value == FirstValue(a, key).value;
      assert IsFirstWithKey(ab, key, i);
      var j :| IsFirstWithKey(ab, key, j) && ab[j].value == FirstValue(ab, key).value;
    } else if FirstValue(b, key).Some? {
      var i :| IsFirstWithKey(b, key, i) && b[i].value == FirstValue(b, key).value;
      assert IsFirstWithKey(ab, key, |a| + i);
      var j :| IsFirstWithKey(ab, key, j) && ab[j].value == FirstValue(ab, key).value;
    } else {
      forall k | 0 <= k < |ab| ensures ab[k].key != key {
        if k >= |a| {
          assert ab[k] == b[k - |a|];
        }
      }
    }
  }
}
