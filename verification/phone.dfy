/**
  The phone-number handling inside `sendMessage`: strip non-digits, assume
  the Brazilian country code 55 for 10- and 11-digit numbers that do not
  already start with it, insist on at least 12 digits, and address the
  result as `<digits>@c.us`.
 */
module Phone {
  import opened Wrappers
  import opened Strings

  const CountryCode := "55"
  const AddressSuffix := "@c.us"

  datatype PhoneError =
    | MissingCountryCode       // fewer than 10 digits and no leading 55
    | TooShort(digits: nat)    // fewer than 12 digits after formatting
  {
    function Message(): string
    {
      match this
      case MissingCountryCode =>
        "Número de telefone inválido. Use o formato com código do país (ex: 5511999999999)"
      case TooShort(n) =>
        "Número de telefone inválido. Tamanho mínimo: 12 dígitos (código do país + DDD + número). Recebido: "
        + NatToString(n) + " dígitos"
    }
  }

  /** The numbers the service accepts once the non-digits are gone. */
  predicate Accepted(clean: string)
  {
    |clean| >= 12 || (!StartsWith(clean, CountryCode) && (|clean| == 10 || |clean| == 11))
  }

  /**
    The formatted number `sendMessage` addresses, or the error it raises.
    Accepted numbers come out as digits only, at least 12 of them, either as
    cleaned or with 55 in front; the prefix is added exactly to 10- and
    11-digit numbers not already starting with 55.
   */
  function NormalizePhone(phone: string): (r: Result<string, PhoneError>)
    ensures r.Success? <==> Accepted(KeepDigits(phone))
    ensures r.Success? ==> AllDigits(r.value) && |r.value| >= 12
    ensures r.Success? ==>
              var clean := KeepDigits(phone);
              r.value == (if !StartsWith(clean, CountryCode) && (|clean| == 10 || |clean| == 11)
                          then CountryCode + clean else clean)
    ensures r == Failure(MissingCountryCode) <==>
              !StartsWith(KeepDigits(phone), CountryCode) && |KeepDigits(phone)| < 10
    ensures r.Failure? && !r.error.MissingCountryCode? ==> r.error == TooShort(|KeepDigits(phone)|)
  {
    var clean := KeepDigits(phone);
    var formatted :=
      if !StartsWith(clean, CountryCode) && (|clean| == 10 || |clean| == 11) then CountryCode + clean
      else clean;
    if !StartsWith(clean, CountryCode) && |clean| < 10 then Failure(MissingCountryCode)
    else if |formatted| < 12 then Failure(TooShort(|formatted|))
    else Success(formatted)
  }

  /** The wire address for a formatted number. */
  function WhatsAppAddress(number: string): (addr: string)
    ensures StartsWith(addr, number)
    ensures |addr| == |number| + |AddressSuffix|
    ensures addr[|number|..] == AddressSuffix
  {
    number + AddressSuffix
  }

  /** Normalising is idempotent: a formatted number normalises to itself. */
  lemma NormalizeIdempotent(phone: string)
    requires NormalizePhone(phone).Success?
    ensures NormalizePhone(NormalizePhone(phone).value) == NormalizePhone(phone)
  {
    var n := NormalizePhone(phone).value;
    KeepDigitsOfDigits(n);
    if n != KeepDigits(phone) {
      assert StartsWith(n, CountryCode);
    }
  }

  /** The address gives its number back: its digits are exactly the formatted number. */
  lemma AddressKeepsNumber(phone: string)
    requires NormalizePhone(phone).Success?
    ensures var n := NormalizePhone(phone).value;
            KeepDigits(WhatsAppAddress(n)) == n
            && NormalizePhone(WhatsAppAddress(n)) == NormalizePhone(phone)
  {
    var n := NormalizePhone(phone).value;
    AddressDigits(n);
    KeepDigitsOfDigits(n);
    NormalizeSeesOnlyDigits(WhatsAppAddress(n), n);
    NormalizeIdempotent(phone);
  }

  /** The suffix adds no digits. */
  lemma AddressDigits(n: string)
    requires AllDigits(n)
    ensures KeepDigits(WhatsAppAddress(n)) == n
  {
    KeepDigitsAppend(n, AddressSuffix);
    KeepDigitsOfDigits(n);
    KeepDigitsOfNonDigits(AddressSuffix);
    assert n + "" == n;
  }

  /** Normalising looks at nothing but the digits. */
  lemma NormalizeSeesOnlyDigits(a: string, b: string)
    requires KeepDigits(a) == KeepDigits(b)
    ensures NormalizePhone(a) == NormalizePhone(b)
  {
  }

  /** A 10- or 11-digit national number without the country code gets 55 in front (e.g. 11987654321 becomes 5511987654321). */
  lemma NationalNumberGetsCountryCode(phone: string)
    requires var clean := KeepDigits(phone);
             !StartsWith(clean, CountryCode) && (|clean| == 10 || |clean| == 11)
    ensures NormalizePhone(phone) == Success(CountryCode + KeepDigits(phone))
    ensures WhatsAppAddress(NormalizePhone(phone).value) == "55" + KeepDigits(phone) + "@c.us"
  {
  }

  /** An already complete 13-digit number beginning with 55 is left exactly as it is. */
  lemma FullNumberUnchanged(number: string)
    requires AllDigits(number) && |number| == 13 && StartsWith(number, CountryCode)
    ensures NormalizePhone(number) == Success(number)
  {
    KeepDigitsOfDigits(number);
  }

  /** Three digits are refused for lacking the country code. */
  lemma ThreeDigitsRefused()
    ensures NormalizePhone("123") == Failure(MissingCountryCode)
  {
    KeepDigitsOfDigits("123");
  }

  /**
    A national number whose area code is 55 (10 or 11 digits beginning
    with 55) is taken to carry the country code already, and is refused.
   */
  lemma AreaCode55NationalNumberRefused(phone: string)
    requires var clean := KeepDigits(phone);
             StartsWith(clean, CountryCode) && (|clean| == 10 || |clean| == 11)
    ensures NormalizePhone(phone) == Failure(TooShort(|KeepDigits(phone)|))
  {
  }
}
