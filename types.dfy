/** The records of the flashcard application: one character of the bank,
    the three screens, and an optional value for data that may be missing. */
module Types {

  /** One learnable character: the character itself (the source field `char`;
      `char` is a Dafny keyword), its pinyin reading,
      its meaning and a mnemonic description. */
  datatype HanziChar = HanziChar(character: string, pinyin: string, meaning: string, visualization: string)

  /** The screen currently shown; exactly one is current. */
  datatype View = Start | Quiz | Results

  datatype Option<T> = None | Some(value: T)
}
