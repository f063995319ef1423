/**
  * The body of a webhook signature verification request. PayPal computes
  * the signature over the webhook event exactly as it was delivered, so the
  * event must reach the verification endpoint as the raw text, not
  * re-serialised.
  *
  * Both clients do this the same way. They serialise the caller's fields
  * with `webhook_event` set to the placeholder string `__RAW_BODY__`. Then
  * they replace the first occurrence of the quoted placeholder with the raw
  * event, using `String.prototype.replace` with a string pattern.
  * `SplicedBody` is that text as written. `VerbatimBody` is what the
  * splice is meant to produce: the serialised fields with the raw event as
  * the value of `webhook_event`. The two agree when the raw event has no
  * `$` and no field looks like the quoted placeholder
  * (`SplicedIsVerbatim`). `DollarPatternsExpanded` and
  * `EarlierFieldCaptured` show inputs where they differ.
  */
module WebhookBody {
  import opened Wrappers
  import opened EcmaString
  import opened FlatJson
  import Http

  /** The placeholder put in place of the webhook event. */
  const Sentinel: string := "__RAW_BODY__"

  /** The placeholder as `JSON.stringify` writes it, which is the pattern replaced. */
  const QuotedSentinel: string := "\"" + Sentinel + "\""

  /** The key of the webhook event in the request body. */
  const EventKey: string := "webhook_event"

  /** The pattern replaced is 14 characters long. */
  lemma QuotedSentinelLength()
    ensures |QuotedSentinel| == 14
  {
  }

  /** The placeholder is plain text for JSON, and the event key is not the placeholder. */
  lemma SentinelInert()
    ensures Inert(Sentinel) && Unlike(EventKey, Sentinel)
  {
    assert EventKey[|EventKey| - |Sentinel| - 1..][0] == 'w';
  }

  /** The quoted placeholder is what `JSON.stringify` writes for the placeholder. */
  lemma SentinelQuoted()
    ensures Quote(Sentinel) == QuotedSentinel
  {
    QuotePlain(Sentinel);
  }

  /**
    * `{...partialBody, webhook_event: "__RAW_BODY__"}`. The placeholder is
    * written after the spread, so it is the value of `webhook_event`
    * whatever the caller passed; no key is repeated; the keys are the
    * caller's and `webhook_event`.
    */
  function SignatureBody(partial: Fields): (r: Object)
    ensures DistinctKeys(r)
    ensures Get(r, EventKey) == Some(Str(Sentinel))
    ensures Keys(r) == FieldKeys(partial) + {EventKey}
  {
    Assign(Spread([], partial), EventKey, Str(Sentinel))
  }

  /**
    * Every key of the caller's other than `webhook_event` keeps, in the
    * signature body, the value the caller's fields give it; a key they do
    * not name is absent.
    */
  lemma SignatureBodyKeepsFields(partial: Fields, k: string)
    requires k != EventKey
    ensures Get(SignatureBody(partial), k)
         == match FieldValue(partial, k)
            case Some(v) => Some(Str(v))
            case None => None
  {
    SpreadGet([], partial, k);
  }

  /** Where `webhook_event` sits in the body: the caller's position for it, or last. */
  function EventIndex(partial: Fields): (i: nat)
    ensures i < |SignatureBody(partial)|
    ensures SignatureBody(partial)[i] == Property(EventKey, Str(Sentinel))
    ensures forall j :: 0 <= j < i ==> SignatureBody(partial)[j].key != EventKey
  {
    KeyIndex(SignatureBody(partial), EventKey).value
  }

  /**
    * Writing raw text in place of property `i`'s value changes nothing
    * around that value.
    */
  lemma RawAtSlot(body: Object, i: nat, raw: string)
    requires i < |body|
    ensures var prefix, suffix := SlotPrefix(body, i), SlotSuffix(body, i);
      Stringify(body) == prefix + ValueText(body[i].value) + suffix &&
      Stringify(body[i := Property(body[i].key, Raw(raw))]) == prefix + raw + suffix
  {
    StringifySlot(body, i);
    StringifySlot(body[i := Property(body[i].key, Raw(raw))], i);
    SlotUnchanged(body, i, Raw(raw));
  }

  /**
    * Property `i` of `body` holds the inert word `w`, and neither the
    * properties before it nor its key look like `w`: replacing the first
    * `"w"` in the serialised body by `raw` (with no `$`) writes `raw` in
    * place of that value.
    */
  lemma SpliceAtSlot(body: Object, i: nat, w: string, raw: string)
    requires Inert(w) && i < |body| && body[i].value == Str(w)
    requires forall j :: 0 <= j < i ==> UnlikeProperty(body[j], w)
    requires Unlike(body[i].key, w)
    requires '$' !in raw
    ensures Replace(Stringify(body), Quote(w), raw) == Stringify(body[i := Property(body[i].key, Raw(raw))])
  {
    var s := Stringify(body);
    FirstQuotedWordAtSlot(body, i, w);
    RawAtSlot(body, i, raw);
    var k := |SlotPrefix(body, i)|;
    ReplaceVerbatim(s, Quote(w), raw, k);
    assert s[..k] == SlotPrefix(body, i);
    assert s[k + |Quote(w)|..] == SlotSuffix(body, i);
  }

  /** Under the conditions of `SpliceAtSlot`, splicing in `$$` writes one character less than `$$`. */
  lemma DollarsAtSlot(body: Object, i: nat, w: string)
    requires Inert(w) && i < |body| && body[i].value == Str(w)
    requires forall j :: 0 <= j < i ==> UnlikeProperty(body[j], w)
    requires Unlike(body[i].key, w)
    ensures |Replace(Stringify(body), Quote(w), "$$")| + 1
         == |Stringify(body[i := Property(body[i].key, Raw("$$"))])|
  {
    FirstQuotedWordAtSlot(body, i, w);
    RawAtSlot(body, i, "$$");
    ReplaceByDollars(Stringify(body), Quote(w));
  }

  /** The serialised body before splicing: the placeholder, quoted, fills the `webhook_event` slot. */
  lemma SentinelInSlot(partial: Fields)
    ensures var body, i := SignatureBody(partial), EventIndex(partial);
      Stringify(body) == SlotPrefix(body, i) + QuotedSentinel + SlotSuffix(body, i)
  {
    SentinelQuoted();
    StringifySlot(SignatureBody(partial), EventIndex(partial));
  }

  /**
    * The quoted placeholder always occurs in the serialised body, so the
    * replacement always happens; its first occurrence is no later than the
    * `webhook_event` slot.
    */
  lemma SentinelAlwaysOccurs(partial: Fields)
    ensures var body := SignatureBody(partial);
      IndexOf(Stringify(body), QuotedSentinel).Some? &&
      IndexOf(Stringify(body), QuotedSentinel).value <= |SlotPrefix(body, EventIndex(partial))|
  {
    var body, i := SignatureBody(partial), EventIndex(partial);
    var s := Stringify(body);
    SentinelInSlot(partial);
    var k := |SlotPrefix(body, i)|;
    assert s[k..k + |QuotedSentinel|] == QuotedSentinel;
    assert OccursAt(s, QuotedSentinel, k);
  }

  /**
    * `JSON.stringify(body).replace("\"__RAW_BODY__\"", rawBody)`, as the
    * clients write it.
    */
  function SplicedBody(partial: Fields, raw: string): string {
    Replace(Stringify(SignatureBody(partial)), QuotedSentinel, raw)
  }

  /**
    * The spliced body keeps the text before and after the first occurrence
    * of the quoted placeholder, and puts there the raw event after `$`
    * patterns are expanded.
    */
  lemma SplicedAtFirstOccurrence(partial: Fields, raw: string)
    ensures var s := Stringify(SignatureBody(partial));
      IndexOf(s, QuotedSentinel).Some? &&
      var k := IndexOf(s, QuotedSentinel).value;
      SplicedBody(partial, raw) == s[..k] + GetSubstitution(QuotedSentinel, s, k, raw) + s[k + |QuotedSentinel|..]
  {
    SentinelAlwaysOccurs(partial);
    var s := Stringify(SignatureBody(partial));
    var k := IndexOf(s, QuotedSentinel).value;
    ReplaceAtFirstOccurrence(s, QuotedSentinel, raw, k);
  }

  /**
    * The body the splice is meant to produce: the caller's fields
    * serialised, with the raw event written as it is as the value of
    * `webhook_event`.
    */
  function VerbatimBody(partial: Fields, raw: string): string {
    var body := SignatureBody(partial);
    Stringify(body[EventIndex(partial) := Property(EventKey, Raw(raw))])
  }

  /**
    * The corrected body is the serialised placeholder body with the quoted
    * placeholder in the `webhook_event` slot replaced by the raw event, for
    * every raw event: the event appears there character for character, the
    * text around it is unchanged, and the length grows by `|raw| - 14`.
    */
  lemma VerbatimBodyAtSlot(partial: Fields, raw: string)
    ensures var body, i := SignatureBody(partial), EventIndex(partial);
      var prefix, suffix := SlotPrefix(body, i), SlotSuffix(body, i);
      Stringify(body) == prefix + QuotedSentinel + suffix &&
      VerbatimBody(partial, raw) == prefix + raw + suffix &&
      OccursAt(VerbatimBody(partial, raw), raw, |prefix|) &&
      |VerbatimBody(partial, raw)| == |Stringify(body)| - |QuotedSentinel| + |raw|
  {
    var body, i := SignatureBody(partial), EventIndex(partial);
    SentinelQuoted();
    RawAtSlot(body, i, raw);
    var v := VerbatimBody(partial, raw);
    var prefix := SlotPrefix(body, i);
    assert v[|prefix|..|prefix| + |raw|] == raw;
  }

  /**
    * Keys and values none of which is the placeholder or ends with a double
    * quote followed by it: exactly the fields whose serialised text holds no
    * quoted placeholder (`FlatJson.QuotedWordOccurrence`).
    */
  predicate PlainFields(partial: Fields) {
    forall j :: 0 <= j < |partial| ==> Unlike(partial[j].0, Sentinel) && Unlike(partial[j].1, Sentinel)
  }

  /** `s` is empty or its last character is not `_`, the placeholder's last. */
  predicate NoTrailingUnderscore(s: string) {
    s == [] || s[|s| - 1] != '_'
  }

  /** A string without a trailing `_` is unlike the placeholder. */
  lemma UnlikeWithoutTrailingUnderscore(s: string)
    requires NoTrailingUnderscore(s)
    ensures Unlike(s, Sentinel)
  {
    QuotedEndingLast(s, Sentinel);
  }

  /**
    * Fields whose keys and values are empty or do not end in `_` are plain.
    * The older client's options are of this kind whenever its own
    * `rawBody` option holds the event as a JSON object, whose text ends in
    * `}`.
    */
  lemma PlainWithoutTrailingUnderscores(partial: Fields)
    requires forall j :: 0 <= j < |partial| ==>
      NoTrailingUnderscore(partial[j].0) && NoTrailingUnderscore(partial[j].1)
    ensures PlainFields(partial)
  {
    forall j | 0 <= j < |partial|
      ensures Unlike(partial[j].0, Sentinel) && Unlike(partial[j].1, Sentinel)
    {
      UnlikeWithoutTrailingUnderscore(partial[j].0);
      UnlikeWithoutTrailingUnderscore(partial[j].1);
    }
  }

  /** With plain fields, every property before the `webhook_event` slot is plain too. */
  lemma PlainBeforeSlot(partial: Fields)
    requires PlainFields(partial)
    ensures var body := SignatureBody(partial);
      forall j :: 0 <= j < EventIndex(partial) ==> UnlikeProperty(body[j], Sentinel)
  {
    var P := (p: Property) => UnlikeProperty(p, Sentinel);
    var spread := Spread([], partial);
    assert forall j :: 0 <= j < |partial| ==> P(Property(partial[j].0, Str(partial[j].1)));
    SpreadKeeps([], partial, P);
    var body, i := SignatureBody(partial), EventIndex(partial);
    forall j | 0 <= j < i ensures UnlikeProperty(body[j], Sentinel) {
      assert body[j].key != EventKey;
      assert body[j] == spread[j];
      assert P(spread[j]);
    }
  }

  /**
    * When the raw event has no `$` and every caller key and value is plain,
    * the splice does what it is meant to: the spliced body is the corrected
    * body.
    */
  lemma SplicedIsVerbatim(partial: Fields, raw: string)
    requires '$' !in raw
    requires PlainFields(partial)
    ensures SplicedBody(partial, raw) == VerbatimBody(partial, raw)
  {
    SentinelInert();
    SentinelQuoted();
    PlainBeforeSlot(partial);
    SpliceAtSlot(SignatureBody(partial), EventIndex(partial), Sentinel, raw);
  }

  /**
    * A `$$` in the raw event is written as a single `$`: with plain fields,
    * the spliced body of the event `$$` is one character shorter than the
    * corrected one.
    */
  lemma DollarPatternsExpanded(partial: Fields)
    requires PlainFields(partial)
    ensures |SplicedBody(partial, "$$")| + 1 == |VerbatimBody(partial, "$$")|
  {
    SentinelInert();
    SentinelQuoted();
    PlainBeforeSlot(partial);
    DollarsAtSlot(SignatureBody(partial), EventIndex(partial), Sentinel);
  }

  /** A quote followed by an inert word is serialised as `"\` followed by the quoted word. */
  lemma EscapedQuoteWord(w: string)
    requires Inert(w)
    ensures Quote("\"" + w) == "\"\\" + Quote(w)
  {
    var A, C := "\"", "\"\\";
    QuotePlain(w);
    EscapeAppend("\"", w);
    EscapePlain(w);
    assert Escape("\"") == "\\\"";
    assert Quote("\"" + w) == A + ("\\\"" + w) + A;
    Assoc(A, "\\\"", w);
    assert A + "\\\"" == C + A;
    Assoc(C, A, w);
    Assoc(C, A + w, A);
  }

  /** The text of a two-property object. */
  lemma TwoProperties(p0: Property, p1: Property)
    ensures Stringify([p0, p1]) == ("{" + PropertyText(p0)) + (("," + PropertyText(p1)) + "}")
  {
    assert [p0, p1][1..] == [p1];
    assert [p1][1..] == [];
    assert Tail([p1]) == "," + PropertyText(p1);
    assert PropertiesText([p0, p1]) == PropertyText(p0) + Tail([p1]);
    Assoc("{", PropertyText(p0), Tail([p1]));
    Assoc("{" + PropertyText(p0), Tail([p1]), "}");
  }

  /** A text ends with what was appended last. */
  lemma EndsWith(a: string, q: string)
    ensures (a + q)[|a + q| - |q|..] == q
  {
  }

  /** Text ending in a quote, then a closing brace, ends in `"}`. */
  lemma EndsWithQuoteBrace(a: string, q: string)
    requires |q| > 0 && q[|q| - 1] == '"'
    ensures var t := (a + q) + "}"; |t| >= 2 && t[|t| - 2..] == "\"}"
  {
  }

  /**
    * Text shaped like a two-property object whose first value ends with the
    * pattern `q` and whose second value is `q`, where `q` ends in a quote:
    * replacing the first `q` keeps the final `"}`.
    */
  lemma SpliceInFirst(k1: string, c: string, k2: string, q: string, raw: string)
    requires |q| > 0 && q[|q| - 1] == '"'
    ensures var s := ("{" + (k1 + (c + q))) + (("," + (k2 + q)) + "}");
      var t := Replace(s, q, raw);
      |t| >= 2 && t[|t| - 2..] == "\"}"
  {
    var head := "{" + k1 + c;
    Assoc(k1, c, q);
    Assoc("{", k1 + c, q);
    Assoc("{", k1, c);
    EndsWith(head, q);
    Assoc(",", k2, q);
    EndsWithQuoteBrace("," + k2, q);
    ReplaceInHead("{" + (k1 + (c + q)), ("," + (k2 + q)) + "}", q, raw);
  }

  /**
    * In an object whose first value is a quote followed by the inert word
    * `w` and whose second value is `w`, the first `"w"` lies inside the
    * first value, so splicing `raw` there leaves the second value quoted:
    * the spliced text ends in `"}`.
    */
  lemma SplicedInFirstValue(k1: string, k2: string, w: string, raw: string)
    requires Inert(w)
    ensures var body := [Property(k1, Str("\"" + w)), Property(k2, Str(w))];
      var spliced := Replace(Stringify(body), Quote(w), raw);
      |spliced| >= 2 && spliced[|spliced| - 2..] == "\"}"
  {
    var body := [Property(k1, Str("\"" + w)), Property(k2, Str(w))];
    var q := Quote(w);
    QuotePlain(w);
    EscapedQuoteWord(w);
    TwoProperties(body[0], body[1]);
    assert PropertyText(body[0]) == (Quote(k1) + ":") + ("\"\\" + q);
    assert PropertyText(body[1]) == (Quote(k2) + ":") + q;
    SpliceInFirst(Quote(k1) + ":", "\"\\", Quote(k2) + ":", q, raw);
  }

  /** Raw text written as the second and last value is followed only by the closing brace. */
  lemma RawInSecondSlot(p: Property, key: string, raw: string)
    requires |raw| > 0
    ensures var fixed := Stringify([p, Property(key, Raw(raw))]);
      |fixed| >= 2 && fixed[|fixed| - 2..] == [raw[|raw| - 1], '}']
  {
    var p1 := Property(key, Raw(raw));
    assert [p, p1][1..] == [p1];
    assert [p1][1..] == [];
    var t1 := PropertyText(p1);
    assert t1 == Quote(key) + ":" + raw;
    assert t1[|t1| - 1] == raw[|raw| - 1];
    assert Tail([p1]) == "," + t1;
    assert PropertiesText([p, p1]) == PropertyText(p) + Tail([p1]);
    var x := PropertyText(p) + ("," + t1);
    assert Stringify([p, p1]) == "{" + x + "}";
  }

  /**
    * Together: in that object the splice of a non-empty `raw` ends in `"}`,
    * where the text with `raw` written as the second value ends in `raw`'s
    * last character and `}`.
    */
  lemma CapturedByEarlierValue(k1: string, k2: string, w: string, raw: string)
    requires Inert(w) && |raw| > 0
    ensures var body := [Property(k1, Str("\"" + w)), Property(k2, Str(w))];
      var spliced := Replace(Stringify(body), Quote(w), raw);
      var fixed := Stringify(body[1 := Property(k2, Raw(raw))]);
      |spliced| >= 2 && spliced[|spliced| - 2..] == "\"}" &&
      |fixed| >= 2 && fixed[|fixed| - 2..] == [raw[|raw| - 1], '}']
  {
    var body := [Property(k1, Str("\"" + w)), Property(k2, Str(w))];
    SplicedInFirstValue(k1, k2, w, raw);
    assert body[1 := Property(k2, Raw(raw))] == [body[0], Property(k2, Raw(raw))];
    RawInSecondSlot(body[0], k2, raw);
  }

  /** The body built from one caller field other than `webhook_event`. */
  lemma OneFieldBody(key: string, value: string)
    requires key != EventKey
    ensures SignatureBody([(key, value)]) == [Property(key, Str(value)), Property(EventKey, Str(Sentinel))]
    ensures EventIndex([(key, value)]) == 1
  {
    var partial := [(key, value)];
    assert Spread([], partial) == [Property(key, Str(value))];
  }

  /**
    * A caller field (`transmission_id`, say) whose value is `"__RAW_BODY__`
    * captures the raw event `{}`: the event lands inside that value, and
    * `webhook_event` keeps the placeholder. The spliced body ends in `"}`
    * where the corrected one ends in `}}`.
    */
  lemma EarlierFieldCaptured(key: string)
    requires key != EventKey
    ensures var partial := [(key, "\"" + Sentinel)];
      var spliced, verbatim := SplicedBody(partial, "{}"), VerbatimBody(partial, "{}");
      |spliced| >= 2 && spliced[|spliced| - 2..] == "\"}" &&
      |verbatim| >= 2 && verbatim[|verbatim| - 2..] == "}}" &&
      spliced != verbatim
  {
    OneFieldBody(key, "\"" + Sentinel);
    SentinelInert();
    SentinelQuoted();
    CapturedByEarlierValue(key, EventKey, Sentinel, "{}");
  }

  /**
    * The verification request: a POST of `body` to the verification
    * endpoint, as JSON, with the given `Authorization` value.
    */
  function VerifyRequest(baseUrl: string, authorization: string, body: string): (r: Http.Request)
    ensures r.verb == Http.Post && r.url == baseUrl + Http.VerifyWebhookSignaturePath && r.body == Some(body)
    ensures r.headers.Keys == {"Content-Type", "Authorization"}
    ensures r.headers["Content-Type"] == Http.JsonContentType && r.headers["Authorization"] == authorization
  {
    Http.Request(Http.Post, baseUrl + Http.VerifyWebhookSignaturePath,
      map["Content-Type" := Http.JsonContentType, "Authorization" := authorization],
      Some(body))
  }
}
