/** Route text as bytes: a Rust `str` is its UTF-8 bytes, and every character the routes look for is ASCII. */
module RouteText {

  newtype Byte = x: int | 0 <= x < 256

  type Text = seq<Byte>

  const QUOTE: Byte := 34     // "
  const STAR: Byte := 42      // *
  const SLASH: Byte := 47     // /
  const COLON: Byte := 58     // :
  const QUESTION: Byte := 63  // ?
  const OPEN: Byte := 123     // {
  const CLOSE: Byte := 125    // }

  predicate IsBrace(b: Byte) {
    b == OPEN || b == CLOSE
  }

  /** `str::split('/')`. */
  function Split(s: Text): (pieces: seq<Text>)
    ensures |pieces| > 0
  {
    if s == [] then [[]]
    else
      var rest := Split(s[1..]);
      if s[0] == SLASH then [[]] + rest else [[s[0]] + rest[0]] + rest[1..]
  }

  lemma SplitCons(x: Byte, s: Text)
    ensures Split([x] + s) == if x == SLASH then [[]] + Split(s) else [[x] + Split(s)[0]] + Split(s)[1..]
  {
    assert ([x] + s)[1..] == s;
  }

  /** Splitting around a separator splits both sides. */
  lemma {:induction false} SplitAt(a: Text, b: Text)
    ensures Split(a + [SLASH] + b) == Split(a) + Split(b)
  {
    hide Split;
    if a == [] {
      assert a + [SLASH] + b == [SLASH] + b;
      SplitCons(SLASH, b);
      SplitOne([]);
    } else {
      var t := a[1..];
      assert a + [SLASH] + b == [a[0]] + (t + [SLASH] + b);
      assert a == [a[0]] + t;
      SplitAt(t, b);
      SplitCons(a[0], t + [SLASH] + b);
      SplitCons(a[0], t);
      HeadApart(Split(t), Split(b));
    }
  }

  lemma HeadApart<T>(x: seq<T>, y: seq<T>)
    requires x != []
    ensures (x + y)[0] == x[0] && (x + y)[1..] == x[1..] + y
  {
  }

  lemma {:induction false} SplitOne(s: Text)
    requires SLASH !in s
    ensures Split(s) == [s]
  {
    if s != [] {
      SplitOne(s[1..]);
      assert s == [s[0]] + s[1..];
    }
  }

  /** No piece holds a separator. */
  lemma SplitPieces(s: Text)
    ensures forall p :: p in Split(s) ==> SLASH !in p
  {
    if s != [] {
      SplitPieces(s[1..]);
      var rest := Split(s[1..]);
      assert rest[0] in rest;
      assert forall p :: p in rest[1..] ==> p in rest;
    }
  }
}
