/** The name shown under each grid item. */
module Display {

  /** Names longer than this are shortened. */
  const MaxLength: nat := 15
  /** How many leading characters of a long name are kept. */
  const KeptLength: nat := 12
  const Ellipsis: string := "..."

  /** The label of a file: the name itself, or its first twelve characters and "...". */
  function DisplayName(name: string): string {
    if |name| > MaxLength then name[..KeptLength] + Ellipsis else name
  }

  /**
   * A label is never longer than fifteen characters: a short name is shown as is,
   * a long one as a prefix of it followed by the ellipsis, fifteen characters in all.
   */
  lemma DisplayNameSpec(name: string)
    ensures |name| <= MaxLength ==> DisplayName(name) == name
    ensures |name| > MaxLength ==> |DisplayName(name)| == MaxLength
    ensures |name| > MaxLength ==> DisplayName(name)[..KeptLength] == name[..KeptLength]
    ensures |name| > MaxLength ==> DisplayName(name)[KeptLength..] == Ellipsis
  {
    if |name| > MaxLength {
      var r := DisplayName(name);
      assert r[KeptLength..] == Ellipsis;
    }
  }

  /** Shortening a label again leaves it as it is. */
  lemma DisplayNameIdempotent(name: string)
    ensures DisplayName(DisplayName(name)) == DisplayName(name)
  {
    DisplayNameSpec(name);
  }

  /** Two long names that agree on their first twelve characters get the same label. */
  lemma DisplayNameCollides(a: string, b: string)
    requires |a| > MaxLength && |b| > MaxLength
    requires a[..KeptLength] == b[..KeptLength]
    ensures DisplayName(a) == DisplayName(b)
  {
  }
}
