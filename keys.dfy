/**
 * Held keys. The key handlers store `event.key.toLowerCase()`, so the held set only ever
 * contains lower-case names; the movement lookups also ask for the camel-case arrow names.
 */
module Keys {
  /** ASCII case folding of one character. */
  function LowerChar(c: char): char
  {
    if 'A' <= c <= 'Z' then (c as int + 32) as char else c
  }

  predicate NoUpper(s: string)
  {
    forall i | 0 <= i < |s| :: !('A' <= s[i] <= 'Z')
  }

  function ToLower(s: string): (r: string)
    ensures |r| == |s|
    ensures NoUpper(r)
    ensures NoUpper(s) ==> r == s
    ensures forall i | 0 <= i < |s| ::
      if 'A' <= s[i] <= 'Z' then r[i] as int == s[i] as int + 32 else r[i] == s[i]
  {
    if s == [] then [] else [LowerChar(s[0])] + ToLower(s[1..])
  }

  /** Every key in the held set is stored lower-case, as the key handlers write them. */
  ghost predicate LowerCaseKeys(keys: set<string>)
  {
    forall k | k in keys :: NoUpper(k)
  }

  predicate UpHeld(keys: set<string>)    { "w" in keys || "ArrowUp" in keys }
  predicate DownHeld(keys: set<string>)  { "s" in keys || "ArrowDown" in keys }
  predicate LeftHeld(keys: set<string>)  { "a" in keys || "ArrowLeft" in keys }
  predicate RightHeld(keys: set<string>) { "d" in keys || "ArrowRight" in keys }

  /** Arrow keys never steer: only w, s, a and d can be found in a lower-case key set. */
  lemma ArrowKeysNeverHeld(keys: set<string>)
    requires LowerCaseKeys(keys)
    ensures UpHeld(keys) <==> "w" in keys
    ensures DownHeld(keys) <==> "s" in keys
    ensures LeftHeld(keys) <==> "a" in keys
    ensures RightHeld(keys) <==> "d" in keys
  {
    assert "ArrowUp"[0] == 'A' && "ArrowDown"[0] == 'A';
    assert "ArrowLeft"[0] == 'A' && "ArrowRight"[0] == 'A';
  }
}
