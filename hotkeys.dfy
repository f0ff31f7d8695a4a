/**
 * The hotkey capture dialog: key presses build a combination of distinct,
 * normalised key names in first-press order; Return confirms it as a
 * `+`-joined hotkey unless it equals the other hotkey, ignoring case.
 */
module Hotkeys {
  import opened Text

  /** Key names (lower-cased) the dialog refuses outright. */
  const ForbiddenKeys: seq<string> := ["win_l", "win_r", "windows", "meta_l", "meta_r", "??"]

  predicate IsForbidden(keysym: string)
  {
    Lower(keysym) in ForbiddenKeys
  }

  /** Left/right modifier names collapse to one name per modifier. */
  function NormalizeKey(key: string): (k: string)
    ensures k !in ["shift_l", "shift_r", "alt_l", "alt_r", "control_l", "control_r"]
    ensures key in ["shift_l", "shift_r"] ==> k == "shift"
    ensures key in ["alt_l", "alt_r"] ==> k == "alt"
    ensures key in ["control_l", "control_r"] ==> k == "ctrl"
    ensures key !in ["shift_l", "shift_r", "alt_l", "alt_r", "control_l", "control_r"] ==> k == key
  {
    if key == "shift_l" || key == "shift_r" then "shift"
    else if key == "alt_l" || key == "alt_r" then "alt"
    else if key == "control_l" || key == "control_r" then "ctrl"
    else key
  }

  /** `"+".join(keys)`: the hotkey string a confirmed combination becomes. */
  function JoinKeys(keys: seq<string>): (s: string)
    ensures keys != [] ==> keys[0] <= s
    ensures |keys| == 1 ==> s == keys[0]
  {
    if keys == [] then ""
    else if |keys| == 1 then keys[0]
    else keys[0] + "+" + JoinKeys(keys[1..])
  }

  /** `s.split("+")`: the pieces of `s` between the `+` signs. */
  function SplitKeys(s: string): (keys: seq<string>)
    ensures |keys| >= 1
  {
    if s == [] then [""]
    else
      var rest := SplitKeys(s[1..]);
      if s[0] == '+' then [""] + rest
      else [[s[0]] + rest[0]] + rest[1..]
  }

  /** A piece without `+` in front of `b` extends the first piece of `b`'s split. */
  lemma {:induction false} SplitPlusFree(a: string, b: string)
    requires '+' !in a
    ensures SplitKeys(a + b) == [a + SplitKeys(b)[0]] + SplitKeys(b)[1..]
    decreases |a|
  {
    if a == [] {
      var split := SplitKeys(b);
      assert a + b == b && a + split[0] == split[0];
      assert split == [split[0]] + split[1..];
    } else {
      SplitPlusFree(a[1..], b);
      assert (a + b)[1..] == a[1..] + b;
      assert [a[0]] + (a[1..] + SplitKeys(b)[0]) == a + SplitKeys(b)[0];
    }
  }

  /**
   * A joined combination of key names without `+` splits back into exactly
   * those names, in order: the hotkey string loses no key and adds none.
   */
  lemma {:induction false} SplitJoinKeys(keys: seq<string>)
    requires keys != []
    requires forall i :: 0 <= i < |keys| ==> '+' !in keys[i]
    ensures SplitKeys(JoinKeys(keys)) == keys
  {
    if |keys| == 1 {
      SplitPlusFree(keys[0], []);
      assert keys[0] + [] == keys[0];
      assert keys == [keys[0]];
    } else {
      var tail := JoinKeys(keys[1..]);
      SplitJoinKeys(keys[1..]);
      assert keys[0] + "+" + tail == keys[0] + ("+" + tail);
      SplitPlusFree(keys[0], "+" + tail);
      var plusTail := "+" + tail;
      assert plusTail[0] == '+' && plusTail[1..] == tail;
      assert SplitKeys(plusTail) == [""] + keys[1..];
      assert keys[0] + SplitKeys(plusTail)[0] == keys[0];
      assert SplitKeys(plusTail)[1..] == keys[1..];
      assert keys == [keys[0]] + keys[1..];
    }
  }

  /** Two hotkeys are the same when they agree after lower-casing. */
  predicate SameHotkey(a: string, b: string)
  {
    Lower(a) == Lower(b)
  }

  predicate NoDuplicates(keys: seq<string>)
  {
    forall i, j :: 0 <= i < j < |keys| ==> keys[i] != keys[j]
  }

  /** Pressing a key: it is added at the end unless already present. */
  function Press(combination: seq<string>, key: string): (c: seq<string>)
    ensures NoDuplicates(combination) ==> NoDuplicates(c)
    ensures forall k :: k in c <==> k in combination || k == key
    ensures combination <= c
  {
    if key in combination then combination else combination + [key]
  }

  /** The combination after a sequence of (already normalised) presses. */
  function PressAll(keys: seq<string>): seq<string>
  {
    if keys == [] then [] else Press(PressAll(keys[..|keys| - 1]), keys[|keys| - 1])
  }

  /**
   * Whatever the presses, the combination holds each pressed key exactly once
   * and is never longer than the sequence of presses.
   */
  lemma {:induction false} PressAllDistinct(keys: seq<string>)
    ensures NoDuplicates(PressAll(keys))
    ensures forall k :: k in PressAll(keys) <==> k in keys
    ensures |PressAll(keys)| <= |keys|
  {
    if keys != [] {
      var init := keys[..|keys| - 1];
      PressAllDistinct(init);
      assert keys == init + [keys[|keys| - 1]];
    }
  }

  /** What one key event in the dialog leads to. */
  datatype KeyOutcome =
    | Forbidden              // a refused key: error shown, nothing changes
    | NothingToConfirm       // Return with an empty combination
    | Clash                  // Return, but the combination is the other hotkey
    | Accepted(hotkey: string)  // Return: the new hotkey
    | Added(key: string)     // a new key joined the combination
    | Repeated               // the key was already in the combination

  /** The key list of one open capture dialog. */
  class KeyCapture {
    var combination: seq<string>

    ghost predicate Valid()
      reads this
    {
      NoDuplicates(combination)
    }

    constructor ()
      ensures Valid() && combination == []
    {
      combination := [];
    }

    /**
     * One key event, with `other` the hotkey this one must not equal. Forbidden
     * keys and Return leave the combination as it is; any other key is
     * lower-cased, normalised and appended unless already present.
     */
    method OnKey(keysym: string, other: string) returns (r: KeyOutcome)
      requires Valid()
      modifies this
      ensures Valid()
      ensures IsForbidden(keysym) ==> r == Forbidden && combination == old(combination)
      ensures !IsForbidden(keysym) && keysym == "Return" ==>
        combination == old(combination) &&
        r == (if old(combination) == [] then NothingToConfirm
              else if SameHotkey(JoinKeys(old(combination)), other) then Clash
              else Accepted(JoinKeys(old(combination))))
      ensures !IsForbidden(keysym) && keysym != "Return" ==>
        var key := NormalizeKey(Lower(keysym));
        combination == Press(old(combination), key) &&
        r == (if key in old(combination) then Repeated else Added(key))
      ensures r.Accepted? ==> !SameHotkey(r.hotkey, other)
    {
      if Lower(keysym) in ForbiddenKeys {
        return Forbidden;
      }
      if keysym == "Return" {
        if combination == [] {
          return NothingToConfirm;
        }
        var candidate := JoinKeys(combination);
        if Lower(candidate) == Lower(other) {
          return Clash;
        }
        return Accepted(candidate);
      }
      var key := NormalizeKey(Lower(keysym));
      if key !in combination {
        combination := combination + [key];
        r := Added(key);
      } else {
        r := Repeated;
      }
    }
  }
}
