/**
 * The trigger policy for keystrokes: which key presses count, and the burst
 * counter that requests one capture per twenty counted keys.
 */
module Triggers {
  import opened Text
  import opened Records

  /** The parts of a `keydown` event the handler looks at. */
  datatype KeyEvent = KeyEvent(key: string, ctrlKey: bool, altKey: bool, metaKey: bool)

  const AllowedKeys: seq<string> := ["Backspace", "Delete", "Enter", "Tab", "Space"]

  /** Number of counted keys that makes up one burst. */
  const BurstSize: nat := 20

  /**
   * A key whose name is one UTF-16 code unit long (`e.key.length === 1`),
   * typed without Ctrl, Alt or Meta, or one of the allowed editing keys.
   */
  predicate IsQualifying(e: KeyEvent)
  {
    (IsOneCodeUnit(e.key) && !e.ctrlKey && !e.altKey && !e.metaKey) || e.key in AllowedKeys
  }

  /** The burst counter after one key, and whether that key fires a `keystrokes` capture. */
  datatype BurstStep = BurstStep(count: nat, fire: bool)

  function KeyStep(count: nat, e: KeyEvent): (r: BurstStep)
    requires count < BurstSize
    ensures r.count < BurstSize
    ensures !IsQualifying(e) ==> r == BurstStep(count, false)
    ensures IsQualifying(e) ==> r.count == (count + 1) % BurstSize && (r.fire <==> count + 1 == BurstSize)
  {
    if !IsQualifying(e) then BurstStep(count, false)
    else if count + 1 >= BurstSize then BurstStep(0, true)
    else BurstStep(count + 1, false)
  }

  function QualifyingCount(keys: seq<KeyEvent>): nat
  {
    if keys == [] then 0
    else QualifyingCount(keys[..|keys| - 1]) + (if IsQualifying(keys[|keys| - 1]) then 1 else 0)
  }

  /** The burst counter and the number of `keystrokes` captures requested after a run of keys. */
  datatype BurstRun = BurstRun(count: nat, fired: nat)

  function RunKeys(count: nat, keys: seq<KeyEvent>): (r: BurstRun)
    requires count < BurstSize
    ensures r.count < BurstSize
  {
    if keys == [] then BurstRun(count, 0)
    else
      var before := RunKeys(count, keys[..|keys| - 1]);
      var step := KeyStep(before.count, keys[|keys| - 1]);
      BurstRun(step.count, before.fired + if step.fire then 1 else 0)
  }

  /**
   * After a run of keys of which N qualify, starting from counter c, the
   * counter is (c + N) mod 20 and (c + N) div 20 captures have been requested;
   * from a fresh session (c = 0) that is N mod 20 and N div 20.
   */
  lemma {:induction false} RunKeysCounts(count: nat, keys: seq<KeyEvent>)
    requires count < BurstSize
    ensures RunKeys(count, keys).count == (count + QualifyingCount(keys)) % BurstSize
    ensures RunKeys(count, keys).fired == (count + QualifyingCount(keys)) / BurstSize
  {
    if keys != [] {
      var init := keys[..|keys| - 1];
      RunKeysCounts(count, init);
      var n := count + QualifyingCount(init);
      var before := RunKeys(count, init);
      var last := keys[|keys| - 1];
      var step := KeyStep(before.count, last);
      assert keys[..|keys| - 1] == init;
      assert RunKeys(count, keys) == BurstRun(step.count, before.fired + if step.fire then 1 else 0);
      assert QualifyingCount(keys) == QualifyingCount(init) + if IsQualifying(last) then 1 else 0;
      CountOneMore(n);
      if !IsQualifying(last) {
        assert step == BurstStep(before.count, false);
      } else if n % BurstSize + 1 == BurstSize {
        assert step == BurstStep(0, true);
      } else {
        assert step == BurstStep(n % BurstSize + 1, false);
      }
    }
  }

  /** Counting one more key either wraps the counter to 0 and completes a burst, or just advances it. */
  lemma CountOneMore(n: nat)
    ensures n % BurstSize + 1 == BurstSize ==> (n + 1) % BurstSize == 0 && (n + 1) / BurstSize == n / BurstSize + 1
    ensures n % BurstSize + 1 != BurstSize ==> (n + 1) % BurstSize == n % BurstSize + 1 && (n + 1) / BurstSize == n / BurstSize
  {
  }

  /** Keys that do not qualify leave the burst counter alone and request nothing. */
  lemma {:induction false} NonQualifyingKeysIgnored(count: nat, keys: seq<KeyEvent>)
    requires count < BurstSize
    requires forall k :: 0 <= k < |keys| ==> !IsQualifying(keys[k])
    ensures RunKeys(count, keys) == BurstRun(count, 0)
  {
    if keys != [] {
      NonQualifyingKeysIgnored(count, keys[..|keys| - 1]);
    }
  }

  /** The reason a `visibilitychange` event gives its capture. */
  function VisibilityReason(hidden: bool): (r: Reason)
    ensures r == TabHidden <==> hidden
    ensures r == TabVisible <==> !hidden
  {
    if hidden then TabHidden else TabVisible
  }
}
