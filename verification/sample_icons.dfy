/** The path data of the two sample icons of the script's self-test, as the
    literal strings it uses, cut at the boundaries of their commands. */
module SampleIcons {
  const LeftPath := "M15.41 16.09l-4.58-4.59 4.58-4.59L14 5.5l-6 6 6 6z"

  const RightPath := "M8.59 16.34l4.58-4.59-4.58-4.59L10 5.75l6 6-6 6z"

  /** The left arrow's path data cut at its command boundaries. */
  lemma LeftPathPieces()
    ensures LeftPath == "M15.41 16.09" + ("l-4.58-4.59" + (" 4.58-4.59" + ("L14 5.5" + ("l-6 6" + (" 6 6" + "z")))))
  {
    LeftPathHalves();
    LeftHeadPieces();
    LeftTailPieces();
  }

  lemma LeftPathHalves()
    ensures LeftPath == "M15.41 16.09l-4.58-4.59" + " 4.58-4.59L14 5.5l-6 6 6 6z"
  {
  }

  lemma LeftHeadPieces()
    ensures "M15.41 16.09l-4.58-4.59" + " 4.58-4.59L14 5.5l-6 6 6 6z" == "M15.41 16.09" + ("l-4.58-4.59" + " 4.58-4.59L14 5.5l-6 6 6 6z")
  {
  }

  lemma LeftTailPieces()
    ensures " 4.58-4.59L14 5.5l-6 6 6 6z" == " 4.58-4.59" + ("L14 5.5" + ("l-6 6" + (" 6 6" + "z")))
  {
  }

  /** The right arrow's path data cut at its command boundaries. */
  lemma RightPathPieces()
    ensures RightPath == "M8.59 16.34" + ("l4.58-4.59" + ("-4.58-4.59" + ("L10 5.75" + ("l6 6" + ("-6 6" + "z")))))
  {
    RightPathHalves();
    RightHeadPieces();
    RightTailPieces();
  }

  lemma RightPathHalves()
    ensures RightPath == "M8.59 16.34l4.58-4.59" + "-4.58-4.59L10 5.75l6 6-6 6z"
  {
  }

  lemma RightHeadPieces()
    ensures "M8.59 16.34l4.58-4.59" + "-4.58-4.59L10 5.75l6 6-6 6z" == "M8.59 16.34" + ("l4.58-4.59" + "-4.58-4.59L10 5.75l6 6-6 6z")
  {
  }

  lemma RightTailPieces()
    ensures "-4.58-4.59L10 5.75l6 6-6 6z" == "-4.58-4.59" + ("L10 5.75" + ("l6 6" + ("-6 6" + "z")))
  {
  }
}
