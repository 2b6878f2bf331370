/**
 * utils/generator/password.go: GeneratePassword fills a buffer of the requested length with
 * characters of an 87-character alphabet, one random draw per character. The random source
 * is given as the outcomes of its successive draws.
 */
module Generator {
  import opened Wrappers
  import opened Errors

  /** DEFAULTLEN */
  const DefaultLen: nat := 12

  const LowerLetters := "abcdefghijklmnopqrstuvwxyz"
  const UpperLetters := "ABCDEFGHIJKLMNOPQRSTUVWXYZ"
  const Digits := "0123456789"
  const Symbols := "!@#$%^&*()-_=+,.?/:;{}[]~"

  /** allChars: the alphabet the password is drawn from. */
  const AllChars := LowerLetters + UpperLetters + Digits + Symbols

  /** A value rand.Int(rand.Reader, big.NewInt(87)) can return. */
  type CharIndex = n: int | 0 <= n < 87

  /** The outcome of one draw from the random source. */
  datatype Draw = Drawn(n: CharIndex) | DrawFailed

  /** The default length is 12, and the alphabet has 26 + 26 + 10 + 25 = 87 characters. */
  lemma AlphabetShape()
    ensures DefaultLen == 12
    ensures |LowerLetters| == 26 && |UpperLetters| == 26 && |Digits| == 10 && |Symbols| == 25
    ensures |AllChars| == 87
  {
  }

  /**
   * GeneratePassword(length). On success the password has `length` characters, the i-th one
   * being allChars at the i-th draw, and exactly `length` draws are used. The first failed
   * draw ends the loop: the result is "" with that error, and no partial password escapes.
   */
  method GeneratePassword(length: nat, draws: seq<Draw>) returns (password: string, used: nat, err: Option<Error>)
    requires length <= |draws|
    ensures used <= length
    ensures err.None? <==> forall i :: 0 <= i < length ==> draws[i].Drawn?
    ensures err.None? ==> used == length && |password| == length
    ensures err.None? ==> forall i :: 0 <= i < length ==> password[i] == AllChars[draws[i].n]
    ensures err.Some? ==>
      && password == ""
      && err.value == Plain(RandomSourceFailure)
      && 1 <= used && draws[used - 1].DrawFailed?
      && forall i :: 0 <= i < used - 1 ==> draws[i].Drawn?
    ensures forall k :: 0 <= k < |password| ==> password[k] in AllChars
    ensures length == 0 ==> password == "" && used == 0 && err.None?
  {
    var buffer := new char[length];
    var i := 0;
    while i < length
      invariant 0 <= i <= length
      invariant forall j :: 0 <= j < i ==> draws[j].Drawn? && buffer[j] == AllChars[draws[j].n]
    {
      match draws[i] {
        case DrawFailed =>
          return "", i + 1, Some(Plain(RandomSourceFailure));
        case Drawn(n) =>
          buffer[i] := AllChars[n];
      }
      i := i + 1;
    }
    password, used, err := buffer[..], length, None;
  }
}
