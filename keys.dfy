/** FX0A, the key wait: how far pc moves and what Vx ends as, in terms of the set of keys that
    are down. */
module Keypad {
  import opened Bits
  import opened Opcodes
  import opened Machine

  /** The indices of the keys that read as down. */
  function Pressed(keys: seq<Byte>): (ks: set<nat>)
    ensures forall k: nat :: k in ks <==> k < |keys| && keys[k] == 1
  {
    set k: nat | k < |keys| && keys[k] == 1
  }

  /** The scan counts each key that is down exactly once. */
  lemma {:induction false} PressedCountIsSize(keys: seq<Byte>)
    ensures PressedCount(keys) == |Pressed(keys)|
  {
    if keys == [] {
      assert Pressed(keys) == {};
    } else {
      var last := |keys| - 1;
      var prefix := keys[..last];
      PressedCountIsSize(prefix);
      if keys[last] == 1 {
        assert Pressed(keys) == Pressed(prefix) + {last};
        assert last !in Pressed(prefix);
      } else {
        assert Pressed(keys) == Pressed(prefix);
      }
    }
  }

  /** FX0A moves pc by 2 for every key that is down and leaves the highest such index in Vx;
      with no key down it changes nothing, so the same word is fetched again; with exactly one
      key k down it stores k and moves on to the next instruction. */
  lemma AwaitKey(s: State, op: Opcode, random: Byte)
    requires Valid(s) && Dispatch(op) == OpFX0A
    ensures var t, x, down := Execute(s, op, random), X(op), Pressed(s.keys);
      t.Ok? && t.value == s.(v := t.value.v, pc := s.pc + 2 * |down|)
      && (forall r :: 0 <= r < NumRegisters && r != x ==> t.value.v[r] == s.v[r])
      && (down != {} ==> t.value.v[x] in down && forall k :: k in down ==> k <= t.value.v[x])
    ensures Pressed(s.keys) == {} ==> Execute(s, op, random) == Ok(s)
    ensures forall k :: Pressed(s.keys) == {k} ==>
      Execute(s, op, random) == Ok(s.(v := s.v[X(op) := k], pc := s.pc + 2))
  {
    var x, down := X(op), Pressed(s.keys);
    PressedCountIsSize(s.keys);
    var last := LastPressed(s.keys, s.v[x]);
    if down == {} {
      assert last == s.v[x];
      assert s.v[x := last] == s.v;
    } else {
      var k :| k in down;
      assert s.keys[k] == 1;
      assert last in down;
    }
  }
}
