// The provisioning device structure (mesh/provision/meshx_prov.c) and the routines that assign its fields, each
// proved to do what the step function of Provision says.

module ProvDevice {
  import opened Bytes
  import opened CcmSpec
  import opened CmacSpec
  import opened Provision

  class ProvDev {
    const device: bool
    var state: nat
    var invite: seq<byte>
    var caps: seq<byte>
    var start: seq<byte>
    var publicKey: seq<byte>
    var privateKey: seq<byte>
    var publicKeyRemote: seq<byte>
    var shareSecret: seq<byte>
    var authValue: seq<byte>
    var random: seq<byte>
    var randomRemote: seq<byte>
    var confirmation: seq<byte>
    var confirmationRemote: seq<byte>
    var confirmationSalt: Block
    var sessionKey: Block
    var sessionNonce: Block
    var deviceKey: Block
    var data: seq<byte>
    var mic: seq<byte>
    var errCode: nat

    function Abs(): Dev
      reads this
    {
      Dev(device, state, invite, caps, start, publicKey, privateKey, publicKeyRemote, shareSecret, authValue, random,
          randomRemote, confirmation, confirmationRemote, confirmationSalt, Keys(sessionKey, sessionNonce, deviceKey),
          data, mic, errCode)
    }

    constructor (device: bool, pub: seq<byte>, priv: seq<byte>, rand: seq<byte>)
      ensures Abs() == Dev(device, IDLE, [], [], [], pub, priv, [], [], [], rand, [], [], [], ZERO_BLOCK,
                           Keys(ZERO_BLOCK, ZERO_BLOCK, ZERO_BLOCK), [], [], 0)
    {
      this.device, state := device, IDLE;
      invite, caps, start, publicKey, privateKey, publicKeyRemote := [], [], [], pub, priv, [];
      shareSecret, authValue, random, randomRemote := [], [], rand, [];
      confirmation, confirmationRemote, confirmationSalt := [], [], ZERO_BLOCK;
      sessionKey, sessionNonce, deviceKey := ZERO_BLOCK, ZERO_BLOCK, ZERO_BLOCK;
      data, mic, errCode := [], [], 0;
    }

    method GenerateConfirmation(e: Env, rand: seq<byte>)
      modifies this`confirmationSalt, this`confirmation
      ensures Abs() == Confirmed(e, old(Abs()), rand)
    {
      hide S1, K1, Cmac;
      var inputs := invite;
      inputs := inputs + caps;
      inputs := inputs + start;
      if device {
        inputs := inputs + publicKeyRemote;
        inputs := inputs + publicKey;
      } else {
        inputs := inputs + publicKey;
        inputs := inputs + publicKeyRemote;
      }
      assert inputs == SaltInputs(Abs());
      confirmationSalt := S1(e.aes, inputs);
      var cfmKey := K1(e.aes, shareSecret, confirmationSalt, PRCK);
      var cfmData := rand + authValue;
      confirmation := Cmac(e.aes, cfmKey, cfmData);
    }

    method VerifyConfirmation(e: Env) returns (same: bool)
      modifies this`confirmationSalt, this`confirmation
      ensures Abs() == Confirmed(e, old(Abs()), old(randomRemote)) && same == (confirmation == confirmationRemote)
    {
      GenerateConfirmation(e, randomRemote);
      same := confirmation == confirmationRemote;
    }

    method CalculateSessionDeviceKey(e: Env)
      modifies this`sessionKey, this`sessionNonce, this`deviceKey
      ensures Abs() == WithKeys(e, old(Abs()))
    {
      hide S1, K1;
      var inputs: seq<byte> := confirmationSalt;
      if device {
        inputs := inputs + randomRemote;
        inputs := inputs + random;
      } else {
        inputs := inputs + random;
        inputs := inputs + randomRemote;
      }
      assert inputs == Abs().salt + (if device then randomRemote + random else random + randomRemote);
      var provSalt := S1(e.aes, inputs);
      sessionKey := K1(e.aes, shareSecret, provSalt, PRSK);
      sessionNonce := K1(e.aes, shareSecret, provSalt, PRSN);
      deviceKey := K1(e.aes, shareSecret, provSalt, PRDK);
    }

    method CallFail(code: byte) returns (sent: seq<Pdu>)
      modifies this`state, this`errCode
      ensures Out(Abs(), sent) == Fail(old(Abs()), code)
    {
      if state < INVITE { return []; }
      if state == COMPLETE || state == FAILED { return []; }
      state := FAILED;
      errCode := code;
      sent := [Failed([code])];
    }

    method CallSendData(e: Env, b: seq<byte>) returns (sent: seq<Pdu>)
      modifies this`state, this`data, this`mic
      ensures Out(Abs(), sent) == SendData(e, old(Abs()), b)
    {
      hide Encrypt;
      if state < RANDOM || state > DATA { return []; }
      if state == DATA { return []; }
      state := DATA;
      var c := Encrypt(e.aes, sessionKey, sessionNonce[3..], [], 8, b);
      data, mic := c.text, c.tag;
      sent := [Data(data + mic)];
    }

    method CallSendConfirmation(b: seq<byte>) returns (sent: seq<Pdu>)
      modifies this`state, this`confirmation
      ensures Out(Abs(), sent) == SendConfirmation(old(Abs()), b)
    {
      if state < PUBLIC_KEY || state > CONFIRMATION { return []; }
      state := CONFIRMATION;
      confirmation := b;
      sent := [Confirmation(b)];
    }

    method CallSendRandom(b: seq<byte>) returns (sent: seq<Pdu>)
      modifies this`state, this`random
      ensures Out(Abs(), sent) == SendRandom(old(Abs()), b)
    {
      if state < CONFIRMATION || state > RANDOM { return []; }
      state := RANDOM;
      random := b;
      sent := [Random(b)];
    }

    method CallSendComplete() returns (sent: seq<Pdu>)
      modifies this`state
      ensures Out(Abs(), sent) == SendComplete(old(Abs()))
    {
      if state < DATA || state > COMPLETE { return []; }
      if state == COMPLETE { return []; }
      state := COMPLETE;
      sent := [Complete([])];
    }

    method OnInvite(b: seq<byte>) returns (sent: seq<Pdu>)
      modifies this
      ensures Out(Abs(), sent) == RecvInvite(old(Abs()), b)
    {
      if |b| < 1 { sent := CallFail(2); return; }
      if state > INVITE { sent := CallFail(3); return; }
      state := INVITE;
      invite := b[..1];
      sent := [];
    }

    method OnCapabilities(b: seq<byte>) returns (sent: seq<Pdu>)
      modifies this
      ensures Out(Abs(), sent) == RecvCapabilities(old(Abs()), b)
    {
      if |b| < 11 { sent := CallFail(2); return; }
      if state > CAPABILITIES { sent := CallFail(3); return; }
      if b[0] == 0 { sent := CallFail(2); return; }
      state := CAPABILITIES;
      caps := b[..11];
      sent := [];
    }

    method OnPublicKey(e: Env, b: seq<byte>) returns (sent: seq<Pdu>)
      modifies this
      ensures Out(Abs(), sent) == RecvPublicKey(e, old(Abs()), b)
    {
      if |b| < 64 { sent := CallFail(2); return; }
      if state > PUBLIC_KEY { sent := CallFail(3); return; }
      if e.validKey(b[..64]) {
        shareSecret := e.ecdh(b[..64], privateKey);
        state := PUBLIC_KEY;
        publicKeyRemote := b[..64];
        sent := [];
      } else {
        sent := CallFail(2);
      }
    }

    method OnConfirmation(b: seq<byte>) returns (sent: seq<Pdu>)
      modifies this
      ensures Out(Abs(), sent) == RecvConfirmation(old(Abs()), b)
    {
      if |b| < 16 { sent := CallFail(2); return; }
      if state > CONFIRMATION { sent := CallFail(3); return; }
      state := CONFIRMATION;
      confirmationRemote := b[..16];
      if device { sent := CallSendConfirmation(confirmation); } else { sent := CallSendRandom(random); }
    }

    method OnRandom(e: Env, b: seq<byte>) returns (sent: seq<Pdu>)
      modifies this
      ensures Out(Abs(), sent) == RecvRandom(e, old(Abs()), b)
    {
      hide S1, K1, Cmac;
      if |b| < 16 { sent := CallFail(2); return; }
      if state > RANDOM { sent := CallFail(3); return; }
      randomRemote := b[..16];
      var same := VerifyConfirmation(e);
      if same {
        state := RANDOM;
        sent := [];
        if device { sent := CallSendRandom(random); }
        CalculateSessionDeviceKey(e);
      } else {
        sent := CallFail(4);
      }
    }

    method OnData(e: Env, b: seq<byte>) returns (sent: seq<Pdu>)
      modifies this
      ensures Out(Abs(), sent) == RecvData(e, old(Abs()), b)
    {
      hide Decrypt, CtrFrom;
      if |b| < 33 { sent := CallFail(2); return; }
      if state > DATA { sent := CallFail(3); return; }
      var r := Decrypt(e.aes, sessionKey, sessionNonce[3..], [], Sealed(b[..25], b[25..33]));
      data := CtrFrom(e.aes, sessionKey, sessionNonce[3..], 1, b[..25]);
      if r.None? { sent := CallFail(6); return; }
      state := DATA;
      sent := CallSendComplete();
    }

    method OnStart(b: seq<byte>) returns (sent: seq<Pdu>)
      modifies this
      ensures Out(Abs(), sent) == RecvStart(old(Abs()), b)
    {
      hide ValidStart, Supported;
      if |b| < 5 { sent := CallFail(2); return; }
      if state > START { sent := CallFail(3); return; }
      if !ValidStart(b) { sent := CallFail(2); return; }
      if !Supported(if |caps| >= 11 then caps else Zeros(11), b) { sent := CallFail(5); return; }
      state := START;
      start := b[..5];
      sent := [];
    }

    /** meshx_prov_pdu_process */
    method PduProcess(e: Env, p: Pdu) returns (sent: seq<Pdu>)
      modifies this
      ensures Out(Abs(), sent) == Process(e, old(Abs()), p)
    {
      hide RecvInvite, RecvCapabilities, RecvStart, RecvPublicKey, RecvConfirmation, RecvRandom, RecvData;
      sent := [];
      match p
      case Invite(b) => sent := OnInvite(b);
      case Capabilities(b) => sent := OnCapabilities(b);
      case Start(b) => sent := OnStart(b);
      case PublicKey(b) => sent := OnPublicKey(e, b);
      case InputComplete(_) => if state > INPUT_COMPLETE { sent := CallFail(3); } else { state := INPUT_COMPLETE; }
      case Confirmation(b) => sent := OnConfirmation(b);
      case Random(b) => sent := OnRandom(e, b);
      case Data(b) => sent := OnData(e, b);
      case Complete(_) => if state > COMPLETE { sent := CallFail(3); } else { state := COMPLETE; }
      case Failed(b) => if |b| >= 1 { state := FAILED; }
      case Unknown(_) => sent := CallFail(1);
    }
  }
}
