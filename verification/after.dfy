/** `util.After` (util/string.go): the text that follows the first occurrence
    of a key. The bot uses it to cut the description off a message once the
    amount has been found in it. */
module StringUtil {
  import opened Wrappers
  import opened Text

  /** The part of `value` after the first occurrence of `key`; `""` when `key`
      does not occur or when its first occurrence ends the string. */
  function After(value: string, key: string): (r: string)
    ensures (forall j :: 0 <= j <= |value| ==> !OccursAt(value, key, j)) ==> r == ""
    ensures forall p :: 0 <= p <= |value| && OccursAt(value, key, p)
                        && (forall j :: 0 <= j < p ==> !OccursAt(value, key, j))
                        ==> r == value[p + |key|..]
  {
    match IndexOf(value, key)
    case None => ""
    case Some(pos) =>
      var adjustedPos := pos + |key|;
      if adjustedPos >= |value| then "" else value[adjustedPos..]
  }

  /** Whatever the inputs, the result is a suffix of `value`. */
  lemma AfterIsSuffix(value: string, key: string)
    ensures exists k :: 0 <= k <= |value| && After(value, key) == value[k..]
  {
    match IndexOf(value, key)
    case None =>
      assert After(value, key) == value[|value|..];
    case Some(pos) =>
      assert After(value, key) == value[pos + |key|..];
  }

  /** When the first occurrence of `key` reaches the end of `value`, nothing follows it. */
  lemma AfterAtEnd(value: string, key: string)
    requires |key| <= |value| && value[|value| - |key|..] == key
    requires forall j :: 0 <= j < |value| - |key| ==> !OccursAt(value, key, j)
    ensures After(value, key) == ""
  {
    assert OccursAt(value, key, |value| - |key|);
  }

  /** An empty key occurs at position 0, so the whole value comes back. */
  lemma AfterEmptyKey(value: string)
    ensures After(value, "") == value
  {
    assert OccursAt(value, "", 0);
  }

  /** Only the first occurrence counts: the test case of util/string_test.go. */
  lemma AfterFirstOccurrenceExample()
    ensures After("123 this is 123 description", "123") == " this is 123 description"
  {
    var v := "123 this is 123 description";
    assert OccursAt(v, "123", 0);
  }
}
