/** The player-row reader of backend/serveices/curd.py (`booking_record_pic`)
    and its nested best-effort number parser `to_int`. Text recognition is the
    `recognise` function of a `PicReading.Screenshot`; the crop boxes here are
    already `(left, top, right, bottom)` rectangles. */
module Curd {
  import opened Text
  import opened Seqs
  import PicReading

  /** What `to_int` returns: an integer, or the text it could not parse. */
  datatype Numeric = Int(n: int) | Raw(s: string)

  const MinusSign: char := '\U{2212}'
  const EnDash: char := '\U{2013}'

  predicate IsDigit(c: char) {
    '0' <= c <= '9'
  }

  predicate AllDigits(d: string) {
    forall k :: 0 <= k < |d| ==> IsDigit(d[k])
  }

  function DigitValue(c: char): nat
    requires IsDigit(c)
  {
    (c as int) - ('0' as int)
  }

  /** The value of a string of decimal digits, most significant first. */
  function DigitsValue(d: string): nat
    requires AllDigits(d)
  {
    if d == [] then 0 else DigitsValue(d[..|d| - 1]) * 10 + DigitValue(d[|d| - 1])
  }

  /** The stripped strings this model lets Python's `int()` accept: an
      optional `-` followed by one or more ASCII digits. */
  predicate IsIntLiteral(t: string) {
    if t != [] && t[0] == '-' then |t| > 1 && AllDigits(t[1..]) else t != [] && AllDigits(t)
  }

  /** The whitespace `int()` skips around a literal: that of `str.isspace()`
      except the four separators U+001C to U+001F, which `str.strip()` removes
      but `int()` rejects. */
  predicate IsIntSpace(c: char) {
    IsSpace(c) && !('\U{1C}' <= c <= '\U{1F}')
  }

  /** `int(t)`: the value of an integer literal with `int()`'s whitespace
      around it, nothing for anything else. */
  function ParseInt(t: string): (r: Option<int>)
    ensures r.Some? <==> IsIntLiteral(Trim(t, IsIntSpace))
  {
    var u := Trim(t, IsIntSpace);
    if u != [] && u[0] == '-' then
      if |u| > 1 && AllDigits(u[1..]) then Some(-(DigitsValue(u[1..]) as int)) else None
    else if u != [] && AllDigits(u) then Some(DigitsValue(u))
    else None
  }

  /** The rewrite `to_int` applies before parsing: every `+` deleted, the
      minus sign U+2212 and the en dash U+2013 turned into `-`. After it no
      `+`, minus sign or en dash is left. */
  function Normalise(s: string): (r: string)
    ensures '+' !in r && MinusSign !in r && EnDash !in r
  {
    var r := ReplaceChar(ReplaceChar(RemoveChar(s, '+'), MinusSign, '-'), EnDash, '-');
    RemoveCharSpec(s, '+');
    assert forall k :: 0 <= k < |r| ==> r[k] != '+' && r[k] != MinusSign && r[k] != EnDash;
    r
  }

  /** Only the plus signs change the length. */
  lemma NormaliseLength(s: string)
    ensures |Normalise(s)| + multiset(s)['+'] == |s|
  {
    RemoveCharSpec(s, '+');
  }

  /** `to_int`: never fails; an integer when the rewritten text parses, and
      otherwise the text exactly as it came in, not the rewritten one. */
  function ToInt(s: string): (r: Numeric)
    ensures r.Raw? ==> r.s == s && ParseInt(Normalise(s)).None?
    ensures r.Int? ==> ParseInt(Normalise(s)) == Some(r.n)
  {
    match ParseInt(Normalise(s))
    case Some(n) => Int(n)
    case None => Raw(s)
  }

  /** The decimal digits of `n`, most significant first. */
  function ShowNat(n: nat): (r: string)
    ensures r != [] && AllDigits(r)
  {
    if n < 10 then [('0' as int + n) as char]
    else ShowNat(n / 10) + [('0' as int + n % 10) as char]
  }

  /** The decimal text of `n`, as Python's `str(n)` writes it. */
  function ShowInt(n: int): string {
    if n < 0 then "-" + ShowNat(-n) else ShowNat(n)
  }

  lemma {:induction false} DigitsOfShowNat(n: nat)
    ensures DigitsValue(ShowNat(n)) == n
  {
    if n >= 10 {
      DigitsOfShowNat(n / 10);
      var d := ShowNat(n);
      assert d[..|d| - 1] == ShowNat(n / 10);
    }
  }

  /** Parsing reads back what `str` wrote. */
  lemma ParseShowInt(n: int)
    ensures ParseInt(ShowInt(n)) == Some(n)
  {
    var t := ShowInt(n);
    assert IsDigit(t[|t| - 1]);
    TrimUnspaced(t, IsIntSpace);
    if n < 0 {
      DigitsOfShowNat(-n);
      assert ShowInt(n)[1..] == ShowNat(-n);
    } else {
      DigitsOfShowNat(n);
    }
  }

  /** The rewrite works character by character, so it distributes over
      concatenation. */
  lemma {:induction false} NormaliseAppend(a: string, b: string)
    ensures Normalise(a + b) == Normalise(a) + Normalise(b)
  {
    RemoveCharAppend(a, b, '+');
    var ra, rb := RemoveChar(a, '+'), RemoveChar(b, '+');
    ReplaceCharAppend(ra, rb, MinusSign, '-');
    ReplaceCharAppend(ReplaceChar(ra, MinusSign, '-'), ReplaceChar(rb, MinusSign, '-'), EnDash, '-');
  }

  /** Text with none of the three rewritten characters is left as it is. */
  lemma NormaliseCanonical(s: string)
    requires '+' !in s && MinusSign !in s && EnDash !in s
    ensures Normalise(s) == s
  {
    RemoveAbsentChar(s, '+');
    assert ReplaceChar(s, MinusSign, '-') == s;
    assert ReplaceChar(s, EnDash, '-') == s;
  }

  /** Every integer written in decimal comes back as itself. */
  lemma ToIntShowInt(n: int)
    ensures ToInt(ShowInt(n)) == Int(n)
  {
    var t := ShowInt(n);
    assert forall k :: 0 <= k < |t| ==> t[k] == '-' || IsDigit(t[k]);
    NormaliseCanonical(t);
    ParseShowInt(n);
  }

  /** A `+` in front of a number is dropped. */
  lemma ToIntPlusPrefix(n: nat)
    ensures ToInt("+" + ShowNat(n)) == Int(n)
  {
    var d := ShowNat(n);
    NormaliseCanonical(d);
    NormaliseAppend("+", d);
    assert Normalise("+") == [];
    assert [] + d == d;
    ToIntShowInt(n);
  }

  /** A minus sign or an en dash in front of a number reads as `-`. */
  lemma ToIntDashPrefix(n: nat, dash: char)
    requires dash == MinusSign || dash == EnDash
    ensures ToInt([dash] + ShowNat(n)) == Int(-(n as int))
  {
    var d := ShowNat(n);
    NormaliseCanonical(d);
    NormaliseAppend([dash], d);
    assert Normalise([dash]) == "-";
    if n > 0 {
      ParseShowInt(-(n as int));
    } else {
      ParseShowInt(0);
      assert ("-" + d)[1..] == d;
    }
  }

  /** A comma survives the rewrite and no literal has one, so text that
      still holds a comma always comes back unparsed. */
  lemma CommaNeverParses(s: string)
    requires ',' in s
    ensures ToInt(s) == Raw(s)
  {
    RemoveCharSpec(s, '+');
    var r := RemoveChar(s, '+');
    assert multiset(r)[','] == multiset(s)[','] > 0;
    var j :| 0 <= j < |r| && r[j] == ',';
    var t := Normalise(s);
    assert t[j] == ',';
    var u := Trim(t, IsIntSpace);
    TrimSpec(t, IsIntSpace);
    var i :| StrippedAt(t, u, i, IsIntSpace);
    assert i <= j < i + |u| && u[j - i] == ',';
    assert !IsIntLiteral(u) by {
      if u != [] && u[0] == '-' {
        assert u[1..][j - i - 1] == ',';
      }
    }
    assert ParseInt(t).None?;
  }

  /** `to_int("+1234")` is 1234. */
  lemma ToIntPlusExample()
    ensures ToInt("+1234") == Int(1234)
  {
    assert ShowNat(1234) == "1234" by {
      assert ShowNat(1) == "1";
      assert ShowNat(12) == "12";
      assert ShowNat(123) == "123";
    }
    ToIntPlusPrefix(1234);
  }

  /** `to_int("−500")` (a minus sign) is -500. */
  lemma ToIntMinusExample()
    ensures ToInt("\U{2212}500") == Int(-500)
  {
    assert ShowNat(500) == "500" by {
      assert ShowNat(5) == "5";
      assert ShowNat(50) == "50";
    }
    ToIntDashPrefix(500, MinusSign);
    assert [MinusSign] + "500" == "\U{2212}500";
  }

  /** Every `+` goes, not only a leading one. */
  lemma ToIntPlusAnywhere()
    ensures ToInt("1+2+3") == Int(123)
  {
    assert RemoveChar("3", '+') == "3";
    assert RemoveChar("+3", '+') == "3";
    assert RemoveChar("2+3", '+') == "23";
    assert RemoveChar("+2+3", '+') == "23";
    assert RemoveChar("1+2+3", '+') == "123";
    NormaliseCanonical("123");
    assert Normalise("1+2+3") == "123";
    assert ShowNat(123) == "123" by {
      assert ShowNat(1) == "1";
      assert ShowNat(12) == "12";
    }
    ToIntShowInt(123);
  }

  /** Whitespace that the removed `+` leaves in front of the digits is
      accepted, as `int()` accepts it. */
  lemma ToIntSpaceAfterPlus()
    ensures ToInt("+ 5") == Int(5)
  {
    assert RemoveChar("5", '+') == "5";
    assert RemoveChar(" 5", '+') == " 5";
    assert RemoveChar("+ 5", '+') == " 5";
    NormaliseCanonical(" 5");
    assert TrimStart(" 5", IsIntSpace) == "5" && TrimEnd("5", IsIntSpace) == "5";
  }

  /** `str.strip()` removes the file separator U+001C but `int()` does not
      skip it, so "+\U{1C}5" stays raw. */
  lemma ToIntFileSeparator()
    ensures Strip("\U{1C}5") == "5"
    ensures ToInt("+\U{1C}5") == Raw("+\U{1C}5")
  {
    assert TrimStart("\U{1C}5", IsSpace) == "5" && TrimEnd("5", IsSpace) == "5";
    assert RemoveChar("5", '+') == "5";
    assert RemoveChar("\U{1C}5", '+') == "\U{1C}5";
    assert RemoveChar("+\U{1C}5", '+') == "\U{1C}5";
    NormaliseCanonical("\U{1C}5");
    TrimUnspaced("\U{1C}5", IsIntSpace);
    assert !IsDigit('\U{1C}');
  }

  /** Text that is no literal comes back unchanged. */
  lemma ToIntRawExamples()
    ensures ToInt("abc") == Raw("abc")
    ensures ToInt("--5") == Raw("--5")
  {
    NormaliseCanonical("abc");
    TrimUnspaced("abc", IsIntSpace);
    assert !IsDigit('a');
    NormaliseCanonical("--5");
    TrimUnspaced("--5", IsIntSpace);
    assert "--5"[1..] == "-5" && !IsDigit('-');
  }

  /** The four crop rectangles of one player row, `(left, top, right, bottom)`. */
  datatype PlayerBoxes = PlayerBoxes(nameBox: PicReading.Rect, handsBox: PicReading.Rect,
                                     buyinBox: PicReading.Rect, profitBox: PicReading.Rect)

  /** One entry of `players`. */
  datatype Player = Player(name: string, hands: Numeric, buyin: Numeric, profit: Numeric)

  /** One pass of the `for box in player_boxes` loop: the three numeric
      fields go through `to_int`, and only the profit loses its commas first,
      so a comma keeps hands or buy-in raw but never the profit. */
  function ReadPlayer(image: PicReading.Screenshot, boxes: PlayerBoxes): (r: Player)
    ensures r.name == PicReading.Recognised(image, boxes.nameBox)
    ensures ',' in PicReading.Recognised(image, boxes.handsBox) ==> r.hands == Raw(PicReading.Recognised(image, boxes.handsBox))
    ensures ',' in PicReading.Recognised(image, boxes.buyinBox) ==> r.buyin == Raw(PicReading.Recognised(image, boxes.buyinBox))
    ensures r.profit.Raw? ==> ',' !in r.profit.s
  {
    var name := PicReading.Recognised(image, boxes.nameBox);
    var hands := PicReading.Recognised(image, boxes.handsBox);
    var buyin := PicReading.Recognised(image, boxes.buyinBox);
    var profit := PicReading.Recognised(image, boxes.profitBox);
    RemoveCharSpec(profit, ',');
    assert ',' in hands ==> ToInt(hands) == Raw(hands) by {
      if ',' in hands { CommaNeverParses(hands); }
    }
    assert ',' in buyin ==> ToInt(buyin) == Raw(buyin) by {
      if ',' in buyin { CommaNeverParses(buyin); }
    }
    Player(name, ToInt(hands), ToInt(buyin), ToInt(RemoveChar(profit, ',')))
  }

  /** A thousands separator is tolerated in the profit column and nowhere
      else: the same text "1,000" is a number there and raw text in hands. */
  lemma CommasOnlyInProfit(image: PicReading.Screenshot, boxes: PlayerBoxes)
    requires image.recognise(boxes.handsBox) == "1,000"
    requires image.recognise(boxes.profitBox) == "1,000"
    ensures ReadPlayer(image, boxes).hands == Raw("1,000")
    ensures ReadPlayer(image, boxes).profit == Int(1000)
  {
    assert Strip("1,000") == "1,000" by {
      TrimUnspaced("1,000", IsSpace);
    }
    CommaNeverParses("1,000");
    ThousandsSeparatorDropped();
  }

  /** With its comma removed, "1,000" reads as 1000. */
  lemma ThousandsSeparatorDropped()
    ensures ToInt(RemoveChar("1,000", ',')) == Int(1000)
  {
    assert RemoveChar("1,000", ',') == "1000";
    assert ShowNat(1000) == "1000" by {
      assert ShowNat(1) == "1";
      assert ShowNat(10) == "10";
      assert ShowNat(100) == "100";
    }
    ToIntShowInt(1000);
  }

  const TitleBox := PicReading.Rect(150, 120, 200, 160)
  const TimeBox := PicReading.Rect(240, 250, 700, 290)

  /** The hand-marked player rows of `booking_record_pic`. */
  const PlayerBoxRows: seq<PlayerBoxes> := [
    PlayerBoxes(PicReading.Rect(100, 560, 300, 590), PicReading.Rect(320, 560, 400, 590),
                PicReading.Rect(420, 560, 500, 590), PicReading.Rect(520, 560, 700, 590)),
    PlayerBoxes(PicReading.Rect(100, 630, 300, 660), PicReading.Rect(320, 630, 400, 660),
                PicReading.Rect(420, 630, 500, 660), PicReading.Rect(520, 630, 700, 660))
  ]

  /** The result `booking_record_pic` assembles. */
  datatype Booking = Booking(title: string, time: string, players: seq<Player>)

  /** `booking_record_pic`: reads the title and the time, then one player
      per marked row, in the order of the rows. */
  method BookingRecordPic(image: PicReading.Screenshot) returns (result: Booking)
    ensures result.title == PicReading.Recognised(image, TitleBox)
    ensures result.time == PicReading.Recognised(image, TimeBox)
    ensures |result.players| == |PlayerBoxRows|
    ensures forall i :: 0 <= i < |PlayerBoxRows| ==> result.players[i] == ReadPlayer(image, PlayerBoxRows[i])
  {
    var title := PicReading.Recognised(image, TitleBox);
    var time := PicReading.Recognised(image, TimeBox);
    var players: seq<Player> := [];
    for i := 0 to |PlayerBoxRows|
      invariant |players| == i
      invariant forall j :: 0 <= j < i ==> players[j] == ReadPlayer(image, PlayerBoxRows[j])
    {
      var box := PlayerBoxRows[i];
      var name := PicReading.Recognised(image, box.nameBox);
      var hands := PicReading.Recognised(image, box.handsBox);
      var buyin := PicReading.Recognised(image, box.buyinBox);
      var profit := RemoveChar(PicReading.Recognised(image, box.profitBox), ',');
      players := players + [Player(name, ToInt(hands), ToInt(buyin), ToInt(profit))];
    }
    result := Booking(title, time, players);
  }
}
