/**
  The stored timestamp text `YYYY/MM/DD,HH:MM:SS` and the text comparison the
  window query applies to it. Fixed-width, zero-padded fields make the
  byte-wise comparison agree with chronological order.
*/
module Timestamp {

  datatype DateTime = DateTime(year: int, month: int, day: int, hour: int, minute: int, second: int)
  {
    /** The ranges the `%Y/%m/%d,%H:%M:%S` directives print with fixed width. */
    predicate Valid()
    {
      0 <= year <= 9999 && 1 <= month <= 12 && 1 <= day <= 31 &&
      0 <= hour <= 23 && 0 <= minute <= 59 && 0 <= second <= 59
    }
  }

  /** Chronological order of civil date-times: field by field, most significant first. */
  predicate Before(a: DateTime, b: DateTime)
  {
    a.year < b.year || (a.year == b.year &&
    (a.month < b.month || (a.month == b.month &&
    (a.day < b.day || (a.day == b.day &&
    (a.hour < b.hour || (a.hour == b.hour &&
    (a.minute < b.minute || (a.minute == b.minute &&
    a.second < b.second)))))))))
  }

  function Digit(n: int): (c: char)
    requires 0 <= n < 10
  {
    (48 + n) as char
  }

  /** Two-digit zero-padded text. */
  function Pad2(n: int): (s: string)
    requires 0 <= n < 100
    ensures |s| == 2
  {
    [Digit(n / 10), Digit(n % 10)]
  }

  /** Four-digit zero-padded text. */
  function Pad4(n: int): (s: string)
    requires 0 <= n < 10000
    ensures |s| == 4
  {
    Pad2(n / 100) + Pad2(n % 100)
  }

  function DateText(t: DateTime): (s: string)
    requires t.Valid()
    ensures |s| == 10
  {
    Pad4(t.year) + ("/" + (Pad2(t.month) + ("/" + Pad2(t.day))))
  }

  function TimeText(t: DateTime): (s: string)
    requires t.Valid()
    ensures |s| == 8
  {
    Pad2(t.hour) + (":" + (Pad2(t.minute) + (":" + Pad2(t.second))))
  }

  /** `strftime('%Y/%m/%d,%H:%M:%S')`. */
  function Stamp(t: DateTime): (s: string)
    requires t.Valid()
    ensures |s| == 19
    ensures s[4] == '/' && s[7] == '/' && s[10] == ',' && s[13] == ':' && s[16] == ':'
    ensures s[..4] == Pad4(t.year) && s[17..] == Pad2(t.second)
  {
    DateText(t) + ("," + TimeText(t))
  }

  /** Text order as the database compares text: code by code, a proper prefix first. */
  predicate TextLess(a: string, b: string)
  {
    if a == [] then b != []
    else b != [] && (a[0] < b[0] || (a[0] == b[0] && TextLess(a[1..], b[1..])))
  }

  /** Comparing two concatenations whose first parts have equal length. */
  lemma {:induction false} TextLessConcat(x1: string, y1: string, x2: string, y2: string)
    requires |x1| == |x2|
    ensures TextLess(x1 + y1, x2 + y2) <==> TextLess(x1, x2) || (x1 == x2 && TextLess(y1, y2))
    ensures x1 + y1 == x2 + y2 <==> x1 == x2 && y1 == y2
  {
    if x1 != [] {
      TextLessConcat(x1[1..], y1, x2[1..], y2);
      assert (x1 + y1)[1..] == x1[1..] + y1;
      assert (x2 + y2)[1..] == x2[1..] + y2;
      if x1 + y1 == x2 + y2 {
        assert x1 == (x1 + y1)[..|x1|] == (x2 + y2)[..|x2|] == x2;
      }
    } else {
      assert x1 + y1 == y1 && x2 + y2 == y2;
    }
  }

  lemma TextLessChars(c: char, d: char)
    ensures TextLess([c], [d]) <==> c < d
  {
    assert [c][1..] == [] && [d][1..] == [];
  }

  lemma Pad2Order(a: int, b: int)
    requires 0 <= a < 100 && 0 <= b < 100
    ensures TextLess(Pad2(a), Pad2(b)) <==> a < b
    ensures Pad2(a) == Pad2(b) <==> a == b
  {
    assert Pad2(a) == [Digit(a / 10)] + [Digit(a % 10)];
    assert Pad2(b) == [Digit(b / 10)] + [Digit(b % 10)];
    TextLessConcat([Digit(a / 10)], [Digit(a % 10)], [Digit(b / 10)], [Digit(b % 10)]);
    TextLessChars(Digit(a / 10), Digit(b / 10));
    TextLessChars(Digit(a % 10), Digit(b % 10));
    assert a == 10 * (a / 10) + a % 10 && b == 10 * (b / 10) + b % 10;
  }

  lemma Pad4Order(a: int, b: int)
    requires 0 <= a < 10000 && 0 <= b < 10000
    ensures TextLess(Pad4(a), Pad4(b)) <==> a < b
    ensures Pad4(a) == Pad4(b) <==> a == b
  {
    TextLessConcat(Pad2(a / 100), Pad2(a % 100), Pad2(b / 100), Pad2(b % 100));
    Pad2Order(a / 100, b / 100);
    Pad2Order(a % 100, b % 100);
    assert a == 100 * (a / 100) + a % 100 && b == 100 * (b / 100) + b % 100;
  }

  /** A field followed by a separator and the rest: the field decides unless equal. */
  lemma FieldThenRest(x1: string, x2: string, sep: string, y1: string, y2: string)
    requires |x1| == |x2|
    ensures TextLess(x1 + (sep + y1), x2 + (sep + y2)) <==> TextLess(x1, x2) || (x1 == x2 && TextLess(y1, y2))
    ensures x1 + (sep + y1) == x2 + (sep + y2) <==> x1 == x2 && y1 == y2
  {
    TextLessConcat(x1, sep + y1, x2, sep + y2);
    TextLessConcat(sep, y1, sep, y2);
    TextLessIrreflexive(sep);
  }

  lemma {:induction false} TextLessIrreflexive(s: string)
    ensures !TextLess(s, s)
  {
    if s != [] {
      TextLessIrreflexive(s[1..]);
    }
  }

  lemma DateTextOrder(a: DateTime, b: DateTime)
    requires a.Valid() && b.Valid()
    ensures TextLess(DateText(a), DateText(b)) <==>
      a.year < b.year || (a.year == b.year && (a.month < b.month || (a.month == b.month && a.day < b.day)))
    ensures DateText(a) == DateText(b) <==> a.year == b.year && a.month == b.month && a.day == b.day
  {
    Pad4Order(a.year, b.year);
    Pad2Order(a.month, b.month);
    Pad2Order(a.day, b.day);
    FieldThenRest(Pad2(a.month), Pad2(b.month), "/", Pad2(a.day), Pad2(b.day));
    FieldThenRest(Pad4(a.year), Pad4(b.year), "/", Pad2(a.month) + ("/" + Pad2(a.day)), Pad2(b.month) + ("/" + Pad2(b.day)));
  }

  lemma TimeTextOrder(a: DateTime, b: DateTime)
    requires a.Valid() && b.Valid()
    ensures TextLess(TimeText(a), TimeText(b)) <==>
      a.hour < b.hour || (a.hour == b.hour && (a.minute < b.minute || (a.minute == b.minute && a.second < b.second)))
    ensures TimeText(a) == TimeText(b) <==> a.hour == b.hour && a.minute == b.minute && a.second == b.second
  {
    Pad2Order(a.hour, b.hour);
    Pad2Order(a.minute, b.minute);
    Pad2Order(a.second, b.second);
    FieldThenRest(Pad2(a.minute), Pad2(b.minute), ":", Pad2(a.second), Pad2(b.second));
    FieldThenRest(Pad2(a.hour), Pad2(b.hour), ":", Pad2(a.minute) + (":" + Pad2(a.second)), Pad2(b.minute) + (":" + Pad2(b.second)));
  }

  /**
    The text comparison `timestamp > ?` of the window query agrees with
    chronological order, and equal texts are equal instants.
  */
  lemma StampOrder(a: DateTime, b: DateTime)
    requires a.Valid() && b.Valid()
    ensures TextLess(Stamp(a), Stamp(b)) <==> Before(a, b)
    ensures Stamp(a) == Stamp(b) <==> a == b
  {
    DateTextOrder(a, b);
    TimeTextOrder(a, b);
    FieldThenRest(DateText(a), DateText(b), ",", TimeText(a), TimeText(b));
  }
}
