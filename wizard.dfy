/**
 * The kiosk's contact wizard: the email screen, the phone screen, the star
 * rating and the send step, with the session fields of the application object
 * that these screens fill in.
 */
module Wizard {
  import opened Options
  import opened Text
  import opened Validators
  import opened Keypads

  /** The screen shown below the video and status line. */
  datatype Screen = EmailEntry | PhoneEntry | RatingEntry | Sending

  /** A carrier and the suffix that turns a phone number into its email-to-SMS address. */
  datatype Gateway = Gateway(carrier: string, suffix: string)

  /** The carrier table, in its declaration order. */
  const CarrierGateways: seq<Gateway> :=
    [Gateway("ATT", "@txt.att.net"),
     Gateway("Verizon", "@vtext.com"),
     Gateway("TMobile", "@tmomail.net"),
     Gateway("Sprint", "@messaging.sprint.com")]

  /** `[f'{p}{gw}' for gw in CARRIER_GATEWAYS.values()]`. */
  function SmsAddresses(p: string): (r: seq<string>)
    ensures r == [p + "@txt.att.net", p + "@vtext.com", p + "@tmomail.net", p + "@messaging.sprint.com"]
  {
    seq(|CarrierGateways|, i requires 0 <= i < |CarrierGateways| => p + CarrierGateways[i].suffix)
  }

  lemma GatewayAddressValid(p: string, host: string, domain: string)
    requires p != [] && '@' !in p
    requires host != [] && '@' !in host && domain != [] && '@' !in domain
    ensures IsValidEmail(p + ("@" + host + "." + domain))
    ensures (p + ("@" + host + "." + domain))[..|p|] == p
  {
    AddressIsValidEmail(p, host, domain);
    assert p + "@" + host + "." + domain == p + ("@" + host + "." + domain);
  }

  /** For a number that holds no '@', each gateway address is an address the
      email check accepts, and starts with the number itself. */
  lemma SmsAddressesDeliverable(p: string)
    requires p != [] && '@' !in p
    ensures var r := SmsAddresses(p);
            |r| == |CarrierGateways| &&
            forall i :: 0 <= i < |r| ==> IsValidEmail(r[i]) && r[i][..|p|] == p
  {
    var r := SmsAddresses(p);
    forall i | 0 <= i < |r|
      ensures IsValidEmail(r[i]) && r[i][..|p|] == p
    {
      var host, domain := GatewayParts(i);
      GatewayAddressValid(p, host, domain);
    }
  }

  /** `host` and `domain` are non-empty, free of '@', and `suffix` is
      '@' + host + '.' + domain. */
  predicate SuffixSplits(suffix: string, host: string, domain: string)
  {
    host != [] && '@' !in host && domain != [] && '@' !in domain &&
    suffix == "@" + host + "." + domain
  }

  lemma AttSplits()
    ensures SuffixSplits(CarrierGateways[0].suffix, "txt.att", "net")
  {
    assert "@" + "txt.att" + "." + "net" == "@txt.att.net";
  }

  lemma VerizonSplits()
    ensures SuffixSplits(CarrierGateways[1].suffix, "vtext", "com")
  {
    assert "@" + "vtext" + "." + "com" == "@vtext.com";
  }

  lemma TMobileSplits()
    ensures SuffixSplits(CarrierGateways[2].suffix, "tmomail", "net")
  {
    assert "@" + "tmomail" + "." + "net" == "@tmomail.net";
  }

  lemma SprintSplits()
    ensures SuffixSplits(CarrierGateways[3].suffix, "messaging.sprint", "com")
  {
    assert "@" + "messaging.sprint" + "." + "com" == "@messaging.sprint.com";
  }

  /** How each carrier suffix reads as '@' + host + '.' + domain. */
  lemma GatewayParts(i: nat) returns (host: string, domain: string)
    requires i < |CarrierGateways|
    ensures SuffixSplits(CarrierGateways[i].suffix, host, domain)
  {
    if i == 0 {
      AttSplits();
      host, domain := "txt.att", "net";
    } else if i == 1 {
      VerizonSplits();
      host, domain := "vtext", "com";
    } else if i == 2 {
      TMobileSplits();
      host, domain := "tmomail", "net";
    } else {
      SprintSplits();
      host, domain := "messaging.sprint", "com";
    }
  }

  const StarCount := 5
  const FilledStar := '\U{2605}'   // BLACK STAR
  const EmptyStar := '\U{2606}'    // WHITE STAR

  /** The star glyphs after a rating of `n`: star `i` is filled when `i < n`. */
  function StarRow(n: int): (row: seq<char>)
    ensures |row| == StarCount
  {
    seq(StarCount, i => if i < n then FilledStar else EmptyStar)
  }

  /** The stars show the rating: exactly the first `n` of the five are filled,
      so the rating can be read back from them. */
  lemma StarRowShowsRating(n: int)
    requires 0 <= n <= StarCount
    ensures forall i :: 0 <= i < StarCount ==> (StarRow(n)[i] == FilledStar <==> i < n)
    ensures CountOf(FilledStar, StarRow(n)) == n
  {
    CountOfPrefix(FilledStar, EmptyStar, StarRow(n), n);
  }

  /**
   * The session state of the kiosk application and the handlers of its wizard
   * screens.  `email` and `phone` are the text fields the keypads edit; the
   * send button's state is `sendEnabled`; `conversionDone` is set by the
   * background render when it finishes.
   */
  class Session {
    var email: string
    var phone: string
    var screen: Screen
    var recipientEmail: Option<string>
    var recipientSms: seq<string>
    var rating: int
    var stars: seq<char>
    var sendEnabled: bool
    var conversionDone: bool
    var converted: Option<string>

    /** An email was accepted, and it is the stripped text of the field. */
    predicate EmailCollected()
      reads this`email, this`recipientEmail
    {
      recipientEmail == Some(Strip(email)) && IsValidEmail(Strip(email))
    }

    /** A phone number was accepted and its gateway addresses are stored. */
    predicate PhoneCollected()
      reads this`phone, this`recipientSms
    {
      IsValidPhone(Strip(phone)) && recipientSms == SmsAddresses(Strip(phone))
    }

    /** What the on-screen keypads and the screens guarantee about the fields
        they fill in: the keypad fields stay well-formed (the model takes input
        from the on-screen keys only), and each screen is reached only after
        the earlier ones accepted their input. */
    ghost predicate FormValid()
      reads this`email, this`phone, this`screen, this`recipientEmail,
            this`recipientSms, this`rating, this`stars
    {
      NoSpace(email) && PhoneFieldOk(phone) &&
      0 <= rating <= StarCount &&
      match screen
      case EmailEntry =>
        recipientEmail == None && recipientSms == [] && rating == 0 && stars == []
      case PhoneEntry =>
        EmailCollected() && recipientSms == [] && rating == 0 && stars == []
      case RatingEntry =>
        EmailCollected() && PhoneCollected() && stars == StarRow(rating)
      case Sending =>
        EmailCollected() && PhoneCollected() && stars == StarRow(rating) && rating > 0
    }

    /** The class invariant: the form is well-formed, the send button is
        enabled only after the render finished and a rating was given (and
        never before the rating screen), and sending begins only once the
        render is done. */
    ghost predicate Valid()
      reads this
    {
      FormValid() &&
      (sendEnabled ==> conversionDone && rating > 0) &&
      (converted.Some? ==> conversionDone) &&
      (screen.EmailEntry? || screen.PhoneEntry? ==> !sendEnabled) &&
      (screen.Sending? ==> conversionDone)
    }

    /** A fresh session: both fields empty, nothing collected, no rating, the
        render not yet finished, and the email screen shown. */
    constructor ()
      ensures Valid()
      ensures email == [] && phone == [] && screen == EmailEntry
      ensures recipientEmail == None && recipientSms == [] && rating == 0
      ensures stars == [] && !sendEnabled && !conversionDone && converted == None
    {
      email, phone, screen := [], [], EmailEntry;
      recipientEmail, recipientSms, rating := None, [], 0;
      stars, sendEnabled, conversionDone, converted := [], false, false, None;
    }

    /** A key of the email keyboard. */
    method EmailKey(k: string)
      requires Valid() && screen == EmailEntry && IsEmailKey(k)
      modifies this`email
      ensures Valid()
      ensures email == EmailKeyStep(old(email), k)
    {
      EmailKeyKeepsNoSpace(email, k);
      email := EmailKeyStep(email, k);
    }

    /** The email screen's Next button: the stripped field is stored and the
        phone screen shown exactly when the email check accepts it; otherwise
        nothing changes.  A field filled from the on-screen keyboard holds no
        whitespace, so the address stored is that field itself. */
    method EmailNext() returns (advanced: bool)
      requires Valid() && screen == EmailEntry
      modifies this`recipientEmail, this`screen
      ensures Valid()
      ensures advanced <==> IsValidEmail(Strip(email))
      ensures advanced <==> IsValidEmail(email)
      ensures advanced ==> recipientEmail == Some(email) && screen == PhoneEntry
      ensures !advanced ==> recipientEmail == old(recipientEmail) && screen == old(screen)
    {
      StripNoSpace(email);
      var e := Strip(email);
      if !IsValidEmail(e) {
        return false;
      }
      recipientEmail := Some(e);
      screen := PhoneEntry;
      return true;
    }

    /** A key of the phone keypad. */
    method PhoneKey(k: string)
      requires Valid() && screen == PhoneEntry && IsPhoneKey(k)
      modifies this`phone
      ensures Valid()
      ensures phone == PhoneKeyStep(old(phone), k)
    {
      PhoneKeyKeepsFieldOk(phone, k);
      phone := PhoneKeyStep(phone, k);
    }

    /** The phone screen's Next button: on a valid number the four gateway
        addresses are stored and the rating screen is shown with five empty
        stars and a disabled send button; otherwise nothing changes.  With a
        field filled from the on-screen keypad this happens exactly when it
        holds ten digits. */
    method PhoneNext() returns (advanced: bool)
      requires Valid() && screen == PhoneEntry
      modifies this`recipientSms, this`screen, this`stars, this`sendEnabled
      ensures Valid()
      ensures advanced <==> IsValidPhone(Strip(phone))
      ensures advanced <==> |phone| == MaxPhoneDigits
      ensures advanced ==> recipientSms == SmsAddresses(phone) && screen == RatingEntry &&
                           stars == StarRow(0) && !sendEnabled
      ensures !advanced ==> recipientSms == old(recipientSms) && screen == old(screen) &&
                            stars == old(stars) && sendEnabled == old(sendEnabled)
    {
      DigitsHaveNoSpace(phone);
      StripNoSpace(phone);
      var p := Strip(phone);
      if !IsValidPhone(p) {
        return false;
      }
      recipientSms := SmsAddresses(p);
      screen := RatingEntry;
      stars := StarRow(0);
      sendEnabled := false;
      return true;
    }

    /** Star `n` (1..5) pressed: the rating becomes `n`, each star is redrawn
        filled or empty, and the send button is enabled when the render has
        finished (it is never disabled again here). */
    method SetRating(n: int)
      requires Valid() && screen == RatingEntry && 1 <= n <= StarCount
      modifies this`rating, this`stars, this`sendEnabled
      ensures Valid()
      ensures rating == n && stars == StarRow(n)
      ensures sendEnabled == (old(sendEnabled) || conversionDone)
    {
      rating := n;
      var i := 0;
      while i < |stars|
        invariant 0 <= i <= |stars| == StarCount
        invariant rating == n
        invariant sendEnabled == old(sendEnabled)
        invariant forall j :: 0 <= j < i ==> stars[j] == if j < n then FilledStar else EmptyStar
      {
        stars := stars[i := if i < n then FilledStar else EmptyStar];
        i := i + 1;
      }
      if conversionDone && rating > 0 {
        sendEnabled := true;
      }
    }

    /** The background render finished and produced the file at `path`. */
    method ConversionFinished(path: string)
      requires Valid()
      modifies this`conversionDone, this`converted
      ensures Valid()
      ensures conversionDone && converted == Some(path)
    {
      ghost var form := FormValid();
      converted := Some(path);
      conversionDone := true;
      assert FormValid() == form;
    }

    /** The send button: the upload starts (and the sending screen replaces
        the rating screen) only when the render has finished and a rating was
        given; otherwise nothing happens. */
    method OnSend() returns (started: bool)
      requires Valid() && screen == RatingEntry
      modifies this`screen
      ensures Valid()
      ensures started <==> conversionDone && rating != 0
      ensures screen == if started then Sending else RatingEntry
    {
      if !(conversionDone && rating != 0) {
        return false;
      }
      screen := Sending;
      return true;
    }

    /** What the delivery step works with once sending has begun: a rendered
        file, a valid email address, and four valid gateway addresses for the
        ten-digit number typed on the keypad. */
    lemma DeliveryTargets()
      requires Valid() && screen == Sending
      ensures conversionDone && rating > 0
      ensures recipientEmail.Some? && IsValidEmail(recipientEmail.value)
      ensures |phone| == MaxPhoneDigits && recipientSms == SmsAddresses(phone)
      ensures forall i :: 0 <= i < |recipientSms| ==> IsValidEmail(recipientSms[i])
    {
      DigitsHaveNoSpace(phone);
      StripNoSpace(phone);
      assert '@' !in phone by {
        assert forall i :: 0 <= i < |phone| ==> IsAsciiDigit(phone[i]);
      }
      SmsAddressesDeliverable(phone);
    }
  }

  /** A rating given before the render finishes leaves the send button
      disabled even after the render is done, yet the send handler's own check
      lets the upload start (the kiosk's buttons call their handler on release
      whatever their state). */
  method RateBeforeRenderFinishes(s: Session)
    requires s.Valid() && s.screen == RatingEntry && !s.sendEnabled && !s.conversionDone
    modifies s`rating, s`stars, s`sendEnabled, s`conversionDone, s`converted, s`screen
    ensures s.Valid() && s.rating == 4 && s.conversionDone
    ensures !s.sendEnabled && s.screen == Sending
  {
    s.SetRating(4);
    assert s.sendEnabled == false;
    s.ConversionFinished("clip_enhanced.mp4");
    assert s.screen == RatingEntry && !s.sendEnabled && s.rating == 4;
    var started := s.OnSend();
  }
}
