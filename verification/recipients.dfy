/**
 The recipient string of the email route, lines 16-20 of the route: split on
 commas, trim every entry, drop the empty ones.
 */
module RecipientList {
  import opened Text

  /** A comma-separated recipient string as a list: split on commas, trim each
      entry, drop the empty ones. */
  function SplitRecipients(s: string): (r: seq<string>)
    ensures forall k :: 0 <= k < |r| ==> r[k] != "" && IsTrimmed(r[k]) && ',' !in r[k]
    ensures r == [] <==> OnlySeparatorsAndWhitespace(s, ',')
  {
    var pieces := Split(s, ',');
    CleanEntries(pieces);
    SplitAllBlank(s, ',');
    DropEmpty(TrimAll(pieces))
  }

  /** Trimming and dropping the empty results leaves trimmed, non-empty,
      comma-free entries, and nothing at all exactly when every piece was blank. */
  lemma {:induction false} CleanEntries(pieces: seq<string>)
    requires forall k :: 0 <= k < |pieces| ==> ',' !in pieces[k]
    ensures var r := DropEmpty(TrimAll(pieces));
      && (forall k :: 0 <= k < |r| ==> IsTrimmed(r[k]) && ',' !in r[k])
      && (r == [] <==> AllBlank(pieces))
  {
    if |pieces| > 0 {
      var rest := pieces[1..];
      CleanEntries(rest);
      var t := Trim(pieces[0]);
      TrimKeepsOut(pieces[0], ',');
      var tail := TrimAll(rest);
      assert TrimAll(pieces) == [t] + tail;
      assert ([t] + tail)[1..] == tail;
      var r := DropEmpty(TrimAll(pieces));
      var d := DropEmpty(tail);
      assert r == (if t == [] then [] else [t]) + d;
      forall k | 0 <= k < |r| ensures IsTrimmed(r[k]) && ',' !in r[k] {
        if t == [] { assert r[k] == d[k]; } else if k > 0 { assert r[k] == d[k - 1]; }
      }
      assert AllBlank(pieces) <==> Blank(pieces[0]) && AllBlank(rest) by {
        if Blank(pieces[0]) && AllBlank(rest) {
          forall k | 0 <= k < |pieces| ensures Blank(pieces[k]) {
            if k > 0 { assert pieces[k] == rest[k - 1]; }
          }
        }
        if AllBlank(pieces) {
          forall k | 0 <= k < |rest| ensures Blank(rest[k]) {
            assert rest[k] == pieces[k + 1];
          }
        }
      }
    }
  }

  /** Joining the entries back with commas and normalising again changes nothing. */
  lemma SplitRecipientsIdempotent(s: string)
    ensures SplitRecipients(Join(SplitRecipients(s), ",")) == SplitRecipients(s)
  {
    var r := SplitRecipients(s);
    var joined := Join(r, [',']);
    assert "," == [','];
    if r == [] {
      assert Split(joined, ',') == [""];
      assert TrimAll([""]) == [""];
    } else {
      SplitJoin(r, ',');
      assert Split(joined, ',') == r;
      assert TrimAll(r) == r;
      assert DropEmpty(r) == r;
    }
  }

  /** Entries keep their order: the recipients of `a,b` are those of `a` followed by those of `b`. */
  lemma SplitRecipientsAppend(a: string, b: string)
    ensures SplitRecipients(a + "," + b) == SplitRecipients(a) + SplitRecipients(b)
  {
    assert a + "," + b == a + [','] + b;
    SplitAppend(a, ',', b);
    var pa, pb := Split(a, ','), Split(b, ',');
    TrimAllAppend(pa, pb);
    DropEmptyAppend(TrimAll(pa), TrimAll(pb));
  }

  /** A string without commas is a single entry, unless it is blank. */
  lemma SplitRecipientsSingle(e: string)
    requires ',' !in e
    ensures SplitRecipients(e) == if Blank(e) then [] else [Trim(e)]
  {
    SplitWithoutSeparator(e, ',');
    assert TrimAll([e]) == [Trim(e)];
  }

  /** A trailing comma adds no recipient. */
  lemma SplitRecipientsTrailingComma(x: string)
    ensures SplitRecipients(x + ",") == SplitRecipients(x)
  {
    var e: string := [];
    assert x + "," == x + [','] + e;
    SplitAppend(x, ',', e);
    assert Split(e, ',') == [e];
    TrimAllAppend(Split(x, ','), [e]);
    assert TrimAll([e]) == [e];
    DropEmptyAppend(TrimAll(Split(x, ',')), [e]);
    assert DropEmpty([e]) == [];
  }

  /** Two comma-free, non-blank entries followed by a trailing comma. */
  lemma SplitRecipientsTwo(s: string, a: string, b: string)
    requires s == (a + "," + b) + ","
    requires ',' !in a && ',' !in b && !Blank(a) && !Blank(b)
    ensures SplitRecipients(s) == [Trim(a), Trim(b)]
  {
    assert SplitRecipients(s) == SplitRecipients(a + "," + b) by {
      SplitRecipientsTrailingComma(a + "," + b);
    }
    assert SplitRecipients(a + "," + b) == SplitRecipients(a) + SplitRecipients(b) by {
      SplitRecipientsAppend(a, b);
    }
    SplitRecipientsSingle(a);
    SplitRecipientsSingle(b);
  }

  /** The worked example: blanks dropped, whitespace trimmed, order kept. */
  lemma SplitRecipientsExample(s: string, a: string, b: string)
    requires s == "a@x.com, b@y.com ," && a == "a@x.com" && b == " b@y.com "
    ensures SplitRecipients(s) == ["a@x.com", "b@y.com"]
  {
    assert s == (a + "," + b) + ",";
    ExampleFirstEntry(a);
    ExampleSecondEntry(b);
    ExampleSecondTrimmed(b);
    SplitRecipientsTwo(s, a, b);
  }

  lemma ExampleFirstEntry(a: string)
    requires a == "a@x.com"
    ensures ',' !in a && !Blank(a) && Trim(a) == a
  {
    assert !IsWhitespace(a[0]) && !IsWhitespace(a[|a| - 1]);
  }

  lemma ExampleSecondEntry(b: string)
    requires b == " b@y.com "
    ensures ',' !in b && !Blank(b)
  {
    assert !IsWhitespace(b[1]);
  }

  lemma ExampleSecondTrimmed(b: string)
    requires b == " b@y.com "
    ensures Trim(b) == "b@y.com"
  {
    var m := "b@y.com";
    assert b == [' '] + m + [' '];
    assert IsTrimmed(m) by { assert !IsWhitespace(m[0]) && !IsWhitespace(m[|m| - 1]); }
    TrimPadded(' ', m, ' ');
  }
}
