/**
 Pitch classes of note names, read independently of any lookup table: a
 letter C D E F G A B, optionally followed by a sharp `#` or a flat `b`.
 Used to state what the note-name and key-name tables mean.
 */
module Pitch {
  import opened Results

  /** Semitones above C of a natural note letter. */
  function LetterClass(c: char): Option<int>
  {
    match c
    case 'C' => Some(0)
    case 'D' => Some(2)
    case 'E' => Some(4)
    case 'F' => Some(5)
    case 'G' => Some(7)
    case 'A' => Some(9)
    case 'B' => Some(11)
    case _ => None
  }

  /** The pitch class (0..11, C = 0) a note name denotes, if it is one. */
  function PitchClass(name: string): Option<int>
  {
    if |name| == 0 || |name| > 2 || LetterClass(name[0]).None? then None
    else
      var natural := LetterClass(name[0]).value;
      if |name| == 1 then Some(natural)
      else if name[1] == '#' then Some((natural + 1) % 12)
      else if name[1] == 'b' then Some((natural + 11) % 12)
      else None
  }
}
