/** The edit-customer screen: the progressive Brazilian phone mask
    "(DD) NNNNN-NNNN" applied on every keystroke, and the save handler that
    stores digits only. */
module EditCustomer {
  import Text
  import Seqs

  /** At most 11 digits are kept: two of area code and nine of number. */
  const MaxDigits := 11

  function Min(a: int, b: int): int
  {
    if a < b then a else b
  }

  /** The digits of the typed text, at most the first eleven. */
  function PhoneDigits(raw: string): (r: string)
    ensures Text.AllDigits(r) && |r| == Min(MaxDigits, |Text.StripNonDigits(raw)|)
    ensures r == Text.StripNonDigits(raw)[..|r|]
  {
    var d := Text.StripNonDigits(raw);
    d[..Min(MaxDigits, |d|)]
  }

  /** The mask: "(" and the area code once there is a digit, ") " and up to
      five digits once there are more than two, "-" and the rest once there
      are more than seven. */
  function Mask(d: string): string
  {
    if |d| == 0 then ""
    else
      "(" + d[..Min(2, |d|)]
      + (if |d| > 2 then ") " + d[2..Min(7, |d|)] else "")
      + (if |d| > 7 then "-" + d[7..Min(11, |d|)] else "")
  }

  /** handlePhoneChange: the new content of the phone field. */
  function HandlePhoneChange(raw: string): (r: string)
    ensures |r| <= 15
    ensures r == "" <==> Text.StripNonDigits(raw) == ""
    ensures var d := PhoneDigits(raw);
            && (0 < |d| <= 2 ==> r == "(" + d)
            && (2 < |d| <= 7 ==> r == "(" + d[..2] + (") " + d[2..]))
            && (7 < |d| ==> r == "(" + d[..2] + (") " + d[2..7]) + ("-" + d[7..]))
  {
    var d := PhoneDigits(raw);
    assert |Text.StripNonDigits(raw)| > 0 ==> |d| > 0;
    MaskLayout(d);
    Mask(d)
  }

  /** The layout of the mask by number of digits: "(d", "(dd) d..." and
      "(dd) ddddd-d...". */
  lemma MaskLayout(d: string)
    requires |d| <= MaxDigits
    ensures 0 < |d| <= 2 ==> Mask(d) == "(" + d
    ensures 2 < |d| <= 7 ==> Mask(d) == "(" + d[..2] + (") " + d[2..])
    ensures 7 < |d| ==> Mask(d) == "(" + d[..2] + (") " + d[2..7]) + ("-" + d[7..])
  {
    if 0 < |d| <= 2 {
      assert d[..Min(2, |d|)] == d;
    } else if 2 < |d| <= 7 {
      MaskMediumShape(d);
    } else if 7 < |d| {
      MaskLongShape(d);
    }
  }

  predicate NoDigits(s: string)
  {
    forall i :: 0 <= i < |s| ==> !Text.IsDigit(s[i])
  }

  /** Punctuation followed by digits strips to the digits. */
  lemma StripPunctuated(punct: string, digits: string)
    requires NoDigits(punct) && Text.AllDigits(digits)
    ensures Text.StripNonDigits(punct + digits) == digits
  {
    Text.StripNoDigits(punct);
    Text.StripDigits(digits);
    Text.StripAppend(punct, digits);
  }

  lemma StripTwo(p1: string, a: string, p2: string, b: string)
    requires NoDigits(p1) && NoDigits(p2) && Text.AllDigits(a) && Text.AllDigits(b)
    ensures Text.StripNonDigits(p1 + a + (p2 + b)) == a + b
  {
    StripPunctuated(p1, a);
    StripPunctuated(p2, b);
    Text.StripAppend(p1 + a, p2 + b);
  }

  lemma StripThree(p1: string, a: string, p2: string, b: string, p3: string, c: string)
    requires NoDigits(p1) && NoDigits(p2) && NoDigits(p3)
    requires Text.AllDigits(a) && Text.AllDigits(b) && Text.AllDigits(c)
    ensures Text.StripNonDigits(p1 + a + (p2 + b) + (p3 + c)) == a + b + c
  {
    StripTwo(p1, a, p2, b);
    StripPunctuated(p3, c);
    Text.StripAppend(p1 + a + (p2 + b), p3 + c);
  }

  /** The mask only adds punctuation: stripping the non-digits of a masked
      phone gives back its digits. */
  lemma MaskRoundTrip(d: string)
    requires Text.AllDigits(d) && |d| <= MaxDigits
    ensures Text.StripNonDigits(Mask(d)) == d
  {
    var n := |d|;
    if 0 < n <= 2 {
      MaskShort(d);
    } else if 2 < n <= 7 {
      MaskMedium(d);
    } else if 7 < n {
      MaskLong(d);
    }
  }

  lemma MaskShort(d: string)
    requires Text.AllDigits(d) && 0 < |d| <= 2
    ensures Text.StripNonDigits(Mask(d)) == d
  {
    assert Mask(d) == "(" + d;
    assert NoDigits("(");
    StripPunctuated("(", d);
  }

  lemma MaskMedium(d: string)
    requires Text.AllDigits(d) && 2 < |d| <= 7
    ensures Text.StripNonDigits(Mask(d)) == d
  {
    MaskMediumShape(d);
    PunctuationHasNoDigits();
    StripTwo("(", d[..2], ") ", d[2..]);
    assert d[..2] + d[2..] == d;
  }

  lemma MaskMediumShape(d: string)
    requires 2 < |d| <= 7
    ensures Mask(d) == "(" + d[..2] + (") " + d[2..])
  {
  }

  lemma MaskLong(d: string)
    requires Text.AllDigits(d) && 7 < |d| <= MaxDigits
    ensures Text.StripNonDigits(Mask(d)) == d
  {
    MaskLongShape(d);
    PunctuationHasNoDigits();
    StripThree("(", d[..2], ") ", d[2..7], "-", d[7..]);
    assert d[..2] + d[2..7] + d[7..] == d;
  }

  lemma MaskLongShape(d: string)
    requires 7 < |d| <= MaxDigits
    ensures Mask(d) == "(" + d[..2] + (") " + d[2..7]) + ("-" + d[7..])
  {
  }

  lemma PunctuationHasNoDigits()
    ensures NoDigits("(") && NoDigits(") ") && NoDigits("-")
  {
  }

  /** Typing over an already masked field changes nothing: the handler is
      idempotent. */
  lemma PhoneChangeIdempotent(raw: string)
    ensures HandlePhoneChange(HandlePhoneChange(raw)) == HandlePhoneChange(raw)
  {
    var d := PhoneDigits(raw);
    MaskRoundTrip(d);
    assert PhoneDigits(Mask(d)) == d;
  }

  /** The payload handed to updateCustomer. */
  datatype CustomerUpdate = CustomerUpdate(id: string, name: string, phone: string)

  /** handleSave: refuses an empty name or phone, and otherwise saves the
      phone as its digits only. */
  function HandleSave(id: string, name: string, phone: string): (r: Seqs.Option<CustomerUpdate>)
    ensures r.Some? <==> name != "" && phone != ""
    ensures r.Some? ==> r.value.id == id && r.value.name == name && Text.AllDigits(r.value.phone)
    ensures r.Some? ==> r.value.phone == Text.StripNonDigits(phone)
  {
    if name == "" || phone == "" then Seqs.None
    else Seqs.Some(CustomerUpdate(id, name, Text.StripNonDigits(phone)))
  }

  /** Typing a phone and saving stores exactly the (at most eleven) digits
      typed, and refuses when none were typed. */
  lemma SaveAfterTyping(id: string, name: string, raw: string)
    requires name != ""
    ensures var r := HandleSave(id, name, HandlePhoneChange(raw));
            && (r.None? <==> PhoneDigits(raw) == "")
            && (r.Some? ==> r.value == CustomerUpdate(id, name, PhoneDigits(raw)))
  {
    MaskRoundTrip(PhoneDigits(raw));
  }
}
