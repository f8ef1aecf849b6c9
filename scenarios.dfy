/** What a caller of the account service can conclude from its contracts
    alone: the register / verify / verify-again walk-through with a mocked
    random source that draws "123456". */
module Scenarios {
  import opened Wrappers
  import Email
  import Decimal
  import opened UserClient
  import opened UserService

  const Draws123456: seq<Email.Draw> :=
    [Email.Drawn(1), Email.Drawn(2), Email.Drawn(3), Email.Drawn(4), Email.Drawn(5), Email.Drawn(6)]

  /** On an empty table: registration succeeds although its email is lost, a
      login before verification is refused even with the right password, the
      drawn code verifies the account within fifteen minutes, and a second
      verification is refused as already verified. */
  method RegisterLoginVerifyTwice(key: string, hash: string -> string, now: int)
    returns (registered: Result<RegisterResponse, ServiceError>,
             early: Result<LoginResponse, ServiceError>,
             first: Result<VerifyEmailResponse, ServiceError>,
             second: Result<VerifyEmailResponse, ServiceError>)
    ensures registered == Ok(RegisterResponse(RegisteredMessage, "a@x.com"))
    ensures early == Err(NotVerified)
    ensures first.Ok? && first.value.message == VerifiedMessage
    ensures second == Err(AlreadyVerified)
  {
    var store := new UserStore();
    assert Email.DrawnCode(Draws123456) == Some("123456") by {
      assert Draws123456[..Email.CodeLength] == Draws123456;
      Email.CodeOfShape(Draws123456);
      var v := Email.CodeOf(Draws123456).value;
      assert forall i :: 0 <= i < 6 ==> v[i] == Decimal.DigitChar(i + 1);
      assert Decimal.DigitChar(1) == '1' && Decimal.DigitChar(2) == '2' && Decimal.DigitChar(3) == '3';
      assert Decimal.DigitChar(4) == '4' && Decimal.DigitChar(5) == '5' && Decimal.DigitChar(6) == '6';
      assert v == "123456";
    }
    registered := Register(store, RegisterRequest("a@x.com", "secret1", "A", "B"), now, hash, Draws123456,
                           true, true, false);
    early := Login(store, "a@x.com", "secret1", hash, now + 1, key, true, true, true);
    first := VerifyEmail(store, VerifyEmailRequest("a@x.com", "123456"), now + 60, key,
                         true, true, true, true, true);
    second := VerifyEmail(store, VerifyEmailRequest("a@x.com", "123456"), now + 120, key,
                          true, true, true, true, true);
  }
}
