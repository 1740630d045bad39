/** Sampling, retry and OCR-key settings of the pipeline (config.py). */
module Config {
  import opened Optional

  /** Frames extracted per second of video. */
  const FRAME_RATE: nat := 1
  /** Seconds of video per extracted clip. */
  const CLIP_LENGTH: nat := 6
  /** Only every FRAME_SUBSAMPLE-th frame is analysed; the inline comment's "3 seconds" is not what the value says. */
  const FRAME_SUBSAMPLE: nat := 4
  /** Requests made at most by one OCR call. */
  const MAX_RETRIES: nat := 5
  /** First back-off pause in seconds; it doubles after each retry. */
  const INITIAL_BACKOFF: real := 1.0

  /** Default of the primary OCR key when the environment does not set it. */
  const PLACEHOLDER_KEY: string := "YOUR_OCRSPACE_API_KEY"
  /** The key used when no configured key survives the filter. */
  const FALLBACK_KEY: string := "helloworld"

  /** The filter applied to each configured key: non-empty and longer than 10 characters. */
  predicate UsableKey(k: string) {
    |k| > 0 && |k| > 10
  }

  /**
   * The OCR key list built from the two environment variables (`None` when a
   * variable is unset): the primary key if usable, then the secondary key
   * twice if usable (the append block occurs twice), else the fallback key.
   */
  function OcrKeys(primaryEnv: Option<string>, secondaryEnv: Option<string>): (keys: seq<string>)
    ensures |keys| > 0
    ensures forall i :: 0 <= i < |keys| ==> |keys[i]| > 0
    ensures UsableKey(primaryEnv.GetOr(PLACEHOLDER_KEY)) ==> keys[0] == primaryEnv.GetOr(PLACEHOLDER_KEY)
    ensures UsableKey(secondaryEnv.GetOr("")) ==>
              |keys| >= 2 && keys[|keys| - 2..] == [secondaryEnv.GetOr(""), secondaryEnv.GetOr("")]
    ensures !UsableKey(primaryEnv.GetOr(PLACEHOLDER_KEY)) && !UsableKey(secondaryEnv.GetOr("")) ==> keys == [FALLBACK_KEY]
    ensures UsableKey(primaryEnv.GetOr(PLACEHOLDER_KEY)) || UsableKey(secondaryEnv.GetOr("")) ==>
              |keys| == (if UsableKey(primaryEnv.GetOr(PLACEHOLDER_KEY)) then 1 else 0)
                        + (if UsableKey(secondaryEnv.GetOr("")) then 2 else 0)
              && forall i :: 0 <= i < |keys| ==> UsableKey(keys[i])
  {
    var primary := primaryEnv.GetOr(PLACEHOLDER_KEY);
    var secondary := secondaryEnv.GetOr("");
    var keys := (if UsableKey(primary) then [primary] else [])
                + (if UsableKey(secondary) then [secondary] else [])
                + (if UsableKey(secondary) then [secondary] else []);
    if |keys| == 0 then [FALLBACK_KEY] else keys
  }

  /** With neither variable set, the 21-character placeholder passes the filter and is the only key. */
  lemma UnsetKeysUsePlaceholder()
    ensures OcrKeys(None, None) == [PLACEHOLDER_KEY]
  {
  }
}
