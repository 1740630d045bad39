/** The key masking of the speech-synthesis check (verify_tts_impl.py). */
module VerifyTts {
  import opened Optional
  import opened Text

  /**
   * `mask_key`: "None" for a missing or empty key, four stars for a key of
   * at most 8 characters, otherwise the first and last four characters with
   * a star for each character between.
   */
  function MaskKey(key: Option<string>): (r: string)
    ensures key.GetOr("") == "" ==> r == "None"
    ensures key.GetOr("") != "" && |key.value| <= 8 ==> r == "****"
    ensures key.GetOr("") != "" && |key.value| > 8 ==>
              && |r| == |key.value|
              && r[..4] == key.value[..4]
              && r[|r| - 4..] == key.value[|key.value| - 4..]
              && forall j :: 4 <= j < |r| - 4 ==> r[j] == '*'
  {
    if key.GetOr("") == "" then "None"
    else
      var k := key.value;
      if |k| > 8 then
        var r := k[..4] + Repeat('*', |k| - 8) + k[|k| - 4..];
        assert r[..4] == k[..4];
        assert r[|r| - 4..] == k[|k| - 4..];
        r
      else "****"
  }

  /** Only the ends of a long key are shown: two keys with the same ends mask alike. */
  lemma MaskHidesMiddle(a: string, b: string)
    requires |a| == |b| > 8 && a[..4] == b[..4] && a[|a| - 4..] == b[|b| - 4..]
    ensures MaskKey(Some(a)) == MaskKey(Some(b))
  {
    var ma := MaskKey(Some(a));
    var mb := MaskKey(Some(b));
    forall j | 0 <= j < |ma|
      ensures ma[j] == mb[j]
    {
      if j < 4 {
        assert ma[j] == ma[..4][j];
        assert mb[j] == mb[..4][j];
      } else if j >= |ma| - 4 {
        assert ma[j] == ma[|ma| - 4..][j - (|ma| - 4)];
        assert mb[j] == mb[|mb| - 4..][j - (|mb| - 4)];
      }
    }
  }
}
