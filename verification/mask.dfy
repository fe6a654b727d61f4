/**
 * maskAPIKey of cmd/config/config.go: how `ahrefs config show` displays a
 * stored API key. Go measures and slices strings by byte, so the key is a
 * byte sequence here.
 */
module ConfigCmd {
  import opened Wrappers

  newtype byte = x: int | 0 <= x < 256

  /** "****" in ASCII. */
  const Stars: seq<byte> := [42, 42, 42, 42]

  /** Keys of at most eight bytes become "****"; longer keys keep four bytes at each end around "****". */
  function MaskAPIKey(key: seq<byte>): (masked: seq<byte>)
    ensures |masked| == if |key| <= 8 then 4 else 12
  {
    if |key| <= 8 then Stars else key[..4] + Stars + key[|key| - 4..]
  }

  /**
   * The shape of a masked key: a short key shows only the stars; a long
   * key shows its first four bytes, the stars and its last four bytes.
   */
  lemma MaskShape(key: seq<byte>)
    ensures |key| <= 8 ==> MaskAPIKey(key) == Stars
    ensures |key| > 8 ==>
              && MaskAPIKey(key)[..4] == key[..4]
              && MaskAPIKey(key)[4..8] == Stars
              && MaskAPIKey(key)[8..] == key[|key| - 4..]
  {
    if |key| > 8 {
      var m := MaskAPIKey(key);
      assert m == key[..4] + Stars + key[|key| - 4..];
      assert m[..4] == key[..4];
      assert m[4..8] == Stars;
      assert m[8..] == key[|key| - 4..];
    }
  }

  /** Where byte i of the mask comes from: a position of the key, or None for a star. */
  function Source(key: seq<byte>, i: nat): Option<nat> {
    if |key| <= 8 || 4 <= i < 8 then None
    else if i < 4 then Some(i)
    else Some(|key| - 12 + i)
  }

  /**
   * Every byte of the mask is a star or a copy of the key byte its source
   * names; sources are distinct positions of the key, and at most eight
   * bytes are copied (none for a short key).
   */
  lemma MaskRevealsAtMostEight(key: seq<byte>)
    ensures var m := MaskAPIKey(key);
            && (forall i :: 0 <= i < |m| && Source(key, i).None? ==> m[i] == 42)
            && (forall i :: 0 <= i < |m| && Source(key, i).Some? ==>
                  Source(key, i).value < |key| && m[i] == key[Source(key, i).value])
            && (forall i, j :: 0 <= i < j < |m| && Source(key, i).Some? && Source(key, j).Some? ==>
                  Source(key, i).value != Source(key, j).value)
            && |set i | 0 <= i < |m| && Source(key, i).Some?| == if |key| <= 8 then 0 else 8
  {
    var m := MaskAPIKey(key);
    forall i | 0 <= i < |m|
      ensures Source(key, i).None? ==> m[i] == 42
      ensures Source(key, i).Some? ==> Source(key, i).value < |key| && m[i] == key[Source(key, i).value]
    {
      MaskByte(key, i);
    }
    CopiedCount(key);
  }

  /** Exactly the four bytes at each end of a long key are copied; nothing of a short key is. */
  lemma CopiedCount(key: seq<byte>)
    ensures |set i | 0 <= i < |MaskAPIKey(key)| && Source(key, i).Some?| == if |key| <= 8 then 0 else 8
  {
    var copied := set i | 0 <= i < |MaskAPIKey(key)| && Source(key, i).Some?;
    if |key| <= 8 {
      assert copied == {};
    } else {
      var ends: set<int> := {0, 1, 2, 3, 8, 9, 10, 11};
      assert copied <= ends;
      assert ends <= copied by {
        assert Source(key, 0).Some? && Source(key, 1).Some? && Source(key, 2).Some? && Source(key, 3).Some?;
        assert Source(key, 8).Some? && Source(key, 9).Some? && Source(key, 10).Some? && Source(key, 11).Some?;
      }
      assert copied == ends;
    }
  }

  lemma MaskByte(key: seq<byte>, i: nat)
    requires i < |MaskAPIKey(key)|
    ensures Source(key, i).None? ==> MaskAPIKey(key)[i] == 42
    ensures Source(key, i).Some? ==> Source(key, i).value < |key| && MaskAPIKey(key)[i] == key[Source(key, i).value]
  {
    var m := MaskAPIKey(key);
    MaskShape(key);
    if |key| <= 8 {
      assert m[i] == Stars[i];
    } else if i < 4 {
      assert m[i] == m[..4][i];
    } else if i < 8 {
      assert m[i] == m[4..8][i - 4];
    } else {
      assert m[i] == m[8..][i - 8];
      assert key[|key| - 4..][i - 8] == key[|key| - 12 + i];
    }
  }

  /** Two long keys mask alike exactly when their first four and last four bytes agree: the middle never shows. */
  lemma LongKeysMaskByEnds(k1: seq<byte>, k2: seq<byte>)
    requires |k1| > 8 && |k2| > 8
    ensures MaskAPIKey(k1) == MaskAPIKey(k2) <==> k1[..4] == k2[..4] && k1[|k1| - 4..] == k2[|k2| - 4..]
  {
    MaskShape(k1);
    MaskShape(k2);
    var m1, m2 := MaskAPIKey(k1), MaskAPIKey(k2);
    if k1[..4] == k2[..4] && k1[|k1| - 4..] == k2[|k2| - 4..] {
      assert m1 == m1[..4] + m1[4..8] + m1[8..];
      assert m2 == m2[..4] + m2[4..8] + m2[8..];
    }
  }

  /** All keys of at most eight bytes mask alike, and never like a longer key. */
  lemma ShortKeysIndistinguishable(k1: seq<byte>, k2: seq<byte>)
    requires |k1| <= 8
    ensures MaskAPIKey(k1) == MaskAPIKey(k2) <==> |k2| <= 8
  {
    if |k2| > 8 {
      assert |MaskAPIKey(k2)| == 12;
    }
  }
}
