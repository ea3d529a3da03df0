/** What clients and servers write to each other, byte by byte, and that it is what is printed, received and
    parsed. */
module Wire {
  import opened Decimal
  import opened Numerals
  import opened Options
  import opened Resp
  import opened Frames
  import opened Commands

  /** One string as a client writes it, its length written `d`. */
  function Written(d: string, x: string): string {
    "$" + d + "\r\n" + x + "\r\n"
  }

  /** The strings of `v` as a client writes them, their lengths written as in `ds`. */
  function AllWritten(ds: seq<string>, v: seq<string>): string
    requires |ds| == |v|
  {
    if v == [] then "" else Written(ds[0], v[0]) + AllWritten(ds[1..], v[1..])
  }

  predicate Lengths(ds: seq<string>, v: seq<string>) {
    |ds| == |v| && forall i {:trigger ds[i]} :: 0 <= i < |v| ==> Numeral(ds[i], |v[i]|)
  }

  lemma {:induction false} WrittenIsPrinted(ds: seq<string>, v: seq<string>)
    requires Lengths(ds, v)
    ensures AllWritten(ds, v) == Strings(v)
    decreases |v|
  {
    if v != [] {
      forall i {:trigger ds[1..][i]} | 0 <= i < |v| - 1 ensures Numeral(ds[1..][i], |v[1..][i]|) {
        assert ds[1..][i] == ds[i + 1];
      }
      WrittenIsPrinted(ds[1..], v[1..]);
      NumeralIsPrint(ds[0], |v[0]|);
      FirstPrinted(v);
    }
  }

  lemma {:induction false} FirstPrinted(v: seq<string>)
    requires v != []
    ensures Strings(v) == GetStringMessage(v[0]) + Strings(v[1..])
    decreases |v|
  {
    var w, x := v[..|v| - 1], v[|v| - 1];
    if w == [] {
      assert Strings(w) == "" && v[1..] == [];
      assert Strings(v) == "" + GetStringMessage(x);
    } else {
      FirstPrinted(w);
      assert v[1..][..|v[1..]| - 1] == w[1..];
    }
  }

  /** Lists, integers and status messages are printed as this protocol writes them: lengths and numbers in base
      ten, each string with its length before it. */
  lemma WireText(h: string, ds: seq<string>, v: seq<string>, d: string, n: nat)
    requires Numeral(h, |v|) && Lengths(ds, v) && Numeral(d, n)
    ensures ArrayMessage(v) == "*" + h + "\r\n" + AllWritten(ds, v)
    ensures GetIntergerMessage(n) == ":" + d + "\r\n"
    ensures n > 0 ==> GetIntergerMessage(0 - n) == ":-" + d + "\r\n"
    ensures SUCCESS == "+OK\r\n" && ERROR == "-ERROR\r\n"
  {
    NumeralIsPrint(h, |v|);
    NumeralIsPrint(d, n);
    WrittenIsPrinted(ds, v);
  }

  /** A command as a client writes it, in base ten, is received and parsed as that command, whatever follows. */
  lemma ClientIsHeard(h: string, ds: seq<string>, v: seq<string>, rest: string)
    requires Numeral(h, |v|) && Lengths(ds, v)
    ensures var text := "*" + h + "\r\n" + AllWritten(ds, v); var c := CommandAt(text + rest, 0);
      c.Some? && c.value.0 == v && ParseArray(text + rest) == Some((v, |text|))
  {
    WireText(h, ds, v, h, |v|);
    DecoderAgreesWithParser(ArrayMessage(v) + rest, v, rest);
  }

  const GET_TEXT := "*2\r\n$3\r\nGET\r\n$1\r\na\r\n"

  lemma WrittenGet()
    ensures Written("3", "GET") == "$3\r\nGET\r\n" && Written("1", "a") == "$1\r\na\r\n"
  {
  }

  lemma GetText(ds: seq<string>, v: seq<string>)
    requires ds == ["3", "1"] && v == ["GET", "a"]
    ensures Lengths(ds, v) && "*" + "2" + "\r\n" + AllWritten(ds, v) == GET_TEXT
  {
    assert Worth("3") == 3 && Worth("1") == 1;
    assert ds[1..] == ["1"] && v[1..] == ["a"];
    OneWritten(ds[1..], v[1..]);
    WrittenGet();
    assert "*" + "2" + "\r\n" == "*2\r\n";
    assert "*2\r\n" + ("$3\r\nGET\r\n" + "$1\r\na\r\n") == GET_TEXT;
  }

  lemma OneWritten(ds: seq<string>, v: seq<string>)
    requires |ds| == |v| == 1
    ensures AllWritten(ds, v) == Written(ds[0], v[0])
  {
    assert AllWritten(ds[1..], v[1..]) == "";
  }

  /** For example, the bytes of a client's GET. */
  lemma GetIsHeard(rest: string)
    ensures var c := CommandAt(GET_TEXT + rest, 0); c.Some? && c.value.0 == ["GET", "a"]
    ensures ParseArray(GET_TEXT + rest) == Some((["GET", "a"], |GET_TEXT|))
  {
    var ds, v := ["3", "1"], ["GET", "a"];
    GetText(ds, v);
    assert Worth("2") == 2;
    ClientIsHeard("2", ds, v, rest);
  }

  // ---- nothing else is received ----

  /** What is taken for a header line is one: anything without the mark, the mark, digits and a line end. */
  lemma HeaderMeans(s: string, pos: nat, mark: char) returns (g: string)
    requires pos <= |s| && HeaderAt(s, pos, mark).Some?
    ensures var (h, n) := HeaderAt(s, pos, mark).value;
      pos + n <= |s| && mark !in g && Digits(h) && s[pos..pos + n] == g + [mark] + h + "\r\n"
  {
    var k := FindChar(s, mark, pos).value;
    g := s[pos..k];
    var (h, n) := HeaderAt(s, pos, mark).value;
    var e := k + 1 + |h|;
    assert s[k + 1..e] == h && s[e..e + 2] == "\r\n";
    assert s[pos..pos + n] == s[pos..k] + [s[k]] + s[k + 1..e] + s[e..e + 2];
  }

  /** What is taken for an element is one: after anything without a dollar sign its header line, whose number is
      its length, and its characters. */
  lemma ItemMeans(s: string, pos: nat) returns (g: string, h: string)
    requires pos <= |s| && ItemAt(s, pos).Some?
    ensures var (x, n) := ItemAt(s, pos).value;
      && pos + n <= |s| && '$' !in g && Digits(h) && Read(h) == |x|
      && s[pos..pos + n] == g + "$" + h + "\r\n" + x
  {
    g := HeaderMeans(s, pos, '$');
    h := HeaderAt(s, pos, '$').value.0;
    var m := HeaderAt(s, pos, '$').value.1;
    var (x, n) := ItemAt(s, pos).value;
    assert s[pos..pos + n] == s[pos..pos + m] + s[pos + m..pos + n];
  }
}
