/**
 * Notes and the pitch-to-character mapping of `note.rs`.
 *
 * `note.rs` is not part of this model, so the mapping below is chosen to agree with what
 * its callers show: the 54/78 boundaries and the two-octave shifts of the Pling branch
 * (instruments.rs:172-187), and every character the tests pin (instruments.rs:225-270,
 * song.rs:41-60). The display band is the keys 54..78, key `k` in the band is shown as
 * the character with code `k + 11` ('A'..'Y'), and a key outside the band either fails
 * with `InvalidKey(key)` or, when folding is allowed, is moved by whole octaves (12 keys)
 * into the band first.
 */
module NoteModel {
  import opened Wrappers

  /** A MIDI key number (`u7`). */
  type Key = k: int | 0 <= k <= 127

  /** A pitched event: its key and its quantised start tick (`start_timing`). */
  datatype Note = Note(key: Key, start: nat)

  function StartOf(n: Note): int {
    n.start
  }

  datatype NoteError = InvalidKey(key: int)

  const BandLow: int := 54
  const BandHigh: int := 78

  predicate InBand(k: int) {
    BandLow <= k <= BandHigh
  }

  /** The characters the band is shown with. */
  predicate IsPitchChar(c: char) {
    'A' <= c <= 'Y'
  }

  /** The key a pitch character stands for. */
  function PitchOf(c: char): int {
    c as int - 11
  }

  /**
   * Moves `k` by whole octaves into the band, as few octaves as possible: a key below
   * the band lands in its lowest octave, a key above it in its highest.
   */
  function Fold(k: int): (f: int)
    ensures InBand(f)
    ensures (f - k) % 12 == 0
    ensures InBand(k) ==> f == k
    ensures k < BandLow ==> f - 12 < BandLow
    ensures k > BandHigh ==> f + 12 > BandHigh
    decreases if k < BandLow then BandLow - k else if k > BandHigh then k - BandHigh else 0
  {
    if k < BandLow then Fold(k + 12)
    else if k > BandHigh then Fold(k - 12)
    else k
  }

  /**
   * `Note::key_to_char`: the pitch character of `key`. Without folding, a key outside
   * the band is an error carrying that key; with folding, the key is folded first.
   */
  function KeyToChar(key: int, fold: bool): (r: Result<char, NoteError>)
    ensures r.Ok? <==> fold || InBand(key)
    ensures r.Err? ==> r.error == InvalidKey(key)
    ensures r.Ok? ==> IsPitchChar(r.value)
  {
    if InBand(key) then Ok((key + 11) as char)
    else if fold then Ok((Fold(key) + 11) as char)
    else Err(InvalidKey(key))
  }

  /** The character keeps the key's pitch class, and a key of the band is its own pitch. */
  lemma KeyToCharPitch(key: int, fold: bool)
    requires KeyToChar(key, fold).Ok?
    ensures (PitchOf(KeyToChar(key, fold).value) - key) % 12 == 0
    ensures InBand(key) ==> PitchOf(KeyToChar(key, fold).value) == key
  {
  }

  /** `Note::to_char`: the pitch character of a note's key. */
  function ToChar(n: Note, fold: bool): (r: Result<char, NoteError>)
    ensures r.Ok? <==> fold || InBand(n.key)
    ensures r.Err? ==> r.error == InvalidKey(n.key)
    ensures InBand(n.key) ==> r == Ok((n.key + 11) as char)
  {
    KeyToChar(n.key, fold)
  }

  /** Every pitch character is the image of exactly one key of the band. */
  lemma PitchCharRoundTrip(c: char)
    requires IsPitchChar(c)
    ensures InBand(PitchOf(c))
    ensures KeyToChar(PitchOf(c), false) == Ok(c)
    ensures forall k :: InBand(k) && KeyToChar(k, false) == Ok(c) ==> k == PitchOf(c)
  {
  }

  /** Folding yields the character of the folded key, whichever way it is asked for. */
  lemma KeyToCharFolds(key: int)
    ensures KeyToChar(key, true) == KeyToChar(Fold(key), false)
    ensures KeyToChar(key, true).Ok? && PitchOf(KeyToChar(key, true).value) == Fold(key)
  {
  }

  /** The fixed values the tests rely on. */
  lemma KeyToCharExamples()
    ensures KeyToChar(60, false) == Ok('G') && KeyToChar(62, false) == Ok('I')
    ensures KeyToChar(64, false) == Ok('K')
    ensures KeyToChar(103, true) == Ok('N') && KeyToChar(89, true) == Ok('X')
    ensures KeyToChar(88, true) == Ok('W') && KeyToChar(101, true) == Ok('X')
    ensures KeyToChar(127, false) == Err(InvalidKey(127))
  {
    assert Fold(103) == 67 && Fold(89) == 77 && Fold(88) == 76 && Fold(101) == 77;
  }
}
