/** The crop card (src/components/CropCard.tsx): the masking of the two encrypted fields,
    the show/hide flag that switches it, and the badge colour of each growth stage. */
module CropCard {

  import opened Crops

  /** The mask literal as the file stores it: the bullet U+2022 encoded in UTF-8 and read
      back as Windows-1252, which leaves three characters. */
  const Bullet: string := "\U{00E2}\U{20AC}\U{00A2}"

  /** At most this many mask literals are shown, whatever the length of the text. */
  const MaxMasked: nat := 20

  /** `Math.min(a, b)` on lengths. */
  function Min(a: nat, b: nat): (m: nat)
    ensures m <= a && m <= b && (m == a || m == b)
  {
    if a <= b then a else b
  }

  /** `Bullet.repeat(n)`: n copies of the mask literal, one after the other. */
  function Dots(n: nat): (r: string)
    ensures |r| == 3 * n
    ensures forall i :: 0 <= i < |r| ==> r[i] == Bullet[i % 3]
  {
    if n == 0 then "" else Bullet + Dots(n - 1)
  }

  /** `text.length`: the number of UTF-16 code units, two for every character beyond
      the Basic Multilingual Plane and one for every other. */
  function Utf16Length(s: string): (n: nat)
    ensures |s| <= n <= 2 * |s|
    ensures (forall i :: 0 <= i < |s| ==> s[i] as int <= 0xFFFF) ==> n == |s|
  {
    if s == [] then 0 else (if s[0] as int > 0xFFFF then 2 else 1) + Utf16Length(s[1..])
  }

  /** `encryptedText(text)` while `showEncrypted` is `show`: masked, one mask literal per
      UTF-16 unit of the text, at most twenty of them; shown, the text itself. */
  function EncryptedText(show: bool, text: string): (r: string)
    ensures show ==> |r| == 3 * Min(Utf16Length(text), MaxMasked) <= 3 * MaxMasked
    ensures show ==> forall i :: 0 <= i < |r| ==> r[i] in Bullet
    ensures !show ==> r == text
  {
    if show then Dots(Min(Utf16Length(text), MaxMasked)) else text
  }

  /** Masked, the text becomes one mask literal per UTF-16 unit, capped at twenty, so the
      output is never longer than sixty characters, holds nothing but the literal and is
      never shorter than the text's own character count allows. */
  lemma MaskedShape(text: string)
    ensures |EncryptedText(true, text)| == 3 * Min(Utf16Length(text), MaxMasked) <= 60
    ensures forall i :: 0 <= i < |EncryptedText(true, text)| ==> EncryptedText(true, text)[i] in Bullet
    ensures |EncryptedText(true, text)| >= 3 * Min(|text|, MaxMasked)
  {
  }

  /** Masked output depends on the UTF-16 length of the text only, never on its
      characters, and every text of twenty units or more masks alike. */
  lemma MaskDependsOnLengthOnly(a: string, b: string)
    ensures Utf16Length(a) == Utf16Length(b) ==> EncryptedText(true, a) == EncryptedText(true, b)
    ensures Utf16Length(a) >= MaxMasked && Utf16Length(b) >= MaxMasked ==> EncryptedText(true, a) == EncryptedText(true, b)
    ensures Utf16Length(a) != Utf16Length(b) && (Utf16Length(a) < MaxMasked || Utf16Length(b) < MaxMasked)
      ==> EncryptedText(true, a) != EncryptedText(true, b)
  {
    if Utf16Length(a) != Utf16Length(b) && (Utf16Length(a) < MaxMasked || Utf16Length(b) < MaxMasked) {
      assert |EncryptedText(true, a)| != |EncryptedText(true, b)|;
    }
  }

  /** A character beyond the Basic Multilingual Plane counts twice: one such character
      masks to two literals, where one ordinary character masks to one. */
  lemma AstralCharacterMasksTwice()
    ensures EncryptedText(true, "\U{1F33D}") == Bullet + Bullet
    ensures EncryptedText(true, "a") == Bullet
  {
    assert Utf16Length("\U{1F33D}") == 2;
    assert Utf16Length("a") == 1;
    assert Dots(2) == Bullet + Dots(1);
  }

  /** Unmasked, the text is shown as it is. */
  lemma ShownIsIdentity(text: string)
    ensures EncryptedText(false, text) == text
  {
  }

  /** A card starts with its fields masked. */
  const InitialShowEncrypted := true

  /** The Show/Hide button: `setShowEncrypted(!showEncrypted)`. */
  function Toggled(show: bool): (r: bool)
    ensures r != show
  {
    !show
  }

  /** Two presses restore the original mode; one press from the initial state unmasks. */
  lemma ToggleTwiceRestores(show: bool)
    ensures Toggled(Toggled(show)) == show
    ensures EncryptedText(Toggled(InitialShowEncrypted), InitialCrops[0].fields.yieldPrediction)
         == InitialCrops[0].fields.yieldPrediction
  {
  }

  /** The badge classes of each growth stage: the table covers all five stages. */
  function StageColor(stage: GrowthStage): (c: string)
    ensures c != ""
  {
    match stage
    case Seeding => "bg-muted text-muted-foreground"
    case Growing => "bg-primary text-primary-foreground"
    case Flowering => "bg-accent text-accent-foreground"
    case Harvesting => "bg-secondary text-secondary-foreground"
    case Harvested => "bg-border text-foreground"
  }

  /** No two stages share a badge colour. */
  lemma StageColorsDistinct(s: GrowthStage, t: GrowthStage)
    ensures StageColor(s) == StageColor(t) <==> s == t
  {
    if s != t {
      assert StageColor(s)[3] != StageColor(t)[3] || StageColor(s)[4] != StageColor(t)[4];
    }
  }
}
