/** The authenticated inputs of the offline AES helpers, and the verification built on them. */
module OfflineMac {
  import opened Results
  import opened Words
  import Hex

  const AES_SIZE: nat := 16
  const MAXIMUM_INPUT_SIZE: nat := 16 * 1024 * 1024
  const MAXIMUM_LICENSE_INPUT: nat := 0xFFFF

  /** What a call into the cryptographic provider comes to. */
  datatype Primitive = Produced(bytes: seq<Byte>) | Refused(error: Error) | Raised

  /** The provider's CMAC of a key and an input; nothing is known about its values. */
  type Cmac = (seq<Byte>, seq<Byte>) -> Primitive

  /** Only an output of one block is accepted. */
  function Block(p: Primitive): (r: Result<seq<Byte>>)
    ensures r.Ok? <==> p.Produced? && |p.bytes| == 16
    ensures r.Ok? ==> r.value == p.bytes
    ensures r.Err? ==> r.error == if p.Refused? then p.error else Error(if p.Raised? then Internal else Crypto)
  {
    match p
    case Produced(bytes) => if |bytes| == AES_SIZE then Ok(bytes) else Err(Error(Crypto))
    case Refused(error) => Err(error)
    case Raised => Err(Error(Internal))
  }

  /** The bytes at odd positions. */
  function OddBytes(full: seq<Byte>): (odd: seq<Byte>)
    requires |full| == AES_SIZE
    ensures |odd| == 8 && odd == [full[1], full[3], full[5], full[7], full[9], full[11], full[13], full[15]]
  {
    seq(8, i requires 0 <= i < 8 => full[2 * i + 1])
  }

  method Truncate(full: seq<Byte>) returns (output: seq<Byte>)
    requires |full| == AES_SIZE
    ensures output == OddBytes(full)
  {
    var bytes := new Byte[8](_ => 0);
    for index := 0 to 8
      invariant forall i :: 0 <= i < index ==> bytes[i] == full[2 * i + 1]
    {
      bytes[index] := full[2 * index + 1];
    }
    output := bytes[..];
  }

  method Authenticated(cmac: Cmac, key: seq<Byte>, input: seq<Byte>) returns (r: Result<seq<Byte>>)
    ensures r.Ok? <==> Block(cmac(key, input)).Ok?
    ensures r.Ok? ==> r.value == OddBytes(Block(cmac(key, input)).value)
    ensures r.Err? ==> r == Block(cmac(key, input))
  {
    var full := Block(cmac(key, input));
    if full.Err? {
      return full;
    }
    var output := Truncate(full.value);
    r := Ok(output);
  }

  /** Copy `source` into `buffer` from position `at`. */
  method Copy(source: seq<Byte>, buffer: array<Byte>, at: nat)
    requires at + |source| <= buffer.Length
    modifies buffer
    ensures buffer[..at] == old(buffer[..at]) && buffer[at..at + |source|] == source
    ensures buffer[at + |source|..] == old(buffer[at + |source|..])
  {
    for i := 0 to |source|
      invariant forall j :: 0 <= j < at ==> buffer[j] == old(buffer[j])
      invariant forall j :: at <= j < at + i ==> buffer[j] == source[j - at]
      invariant forall j :: at + i <= j < buffer.Length ==> buffer[j] == old(buffer[j])
    {
      buffer[at + i] := source[i];
    }
  }

  // ---------- MIFARE Classic license ----------

  /** A license announces its own length: one count byte, then two bytes for each block counted. */
  predicate IsLicense(license: seq<Byte>) {
    0 < |license| <= 0xFF && |license| == 1 + 2 * (license[0] as int)
  }

  function LicenseInput(license: seq<Byte>, secrets: seq<Byte>): (input: seq<Byte>)
    ensures |input| == 1 + |license| + |secrets| && input[0] == 0x01
    ensures input[1..1 + |license|] == license && input[1 + |license|..] == secrets
  {
    [0x01] + license + secrets
  }

  predicate LicenseAccepted(key: seq<Byte>, license: seq<Byte>, secrets: seq<Byte>) {
    |key| == AES_SIZE && IsLicense(license) && |LicenseInput(license, secrets)| <= MAXIMUM_LICENSE_INPUT
  }

  method LicenseMac(cmac: Cmac, key: seq<Byte>, license: seq<Byte>, secrets: seq<Byte>) returns (r: Result<seq<Byte>>)
    ensures LicenseAccepted(key, license, secrets) <==>
            && |key| == 16 && 1 <= |license| <= 0xFF && |license| == 1 + 2 * (license[0] as int)
            && 1 + |license| + |secrets| <= 0xFFFF
    ensures !LicenseAccepted(key, license, secrets) ==> r == Err(Error(InvalidArgument))
    ensures LicenseAccepted(key, license, secrets) ==>
              var full := Block(cmac(key, LicenseInput(license, secrets)));
              (r.Ok? <==> full.Ok?) && if r.Ok? then r.value == OddBytes(full.value) else r == full
  {
    var valid := |license| > 0 && |license| <= 0xFF && |license| == 1 + 2 * (license[0] as int);
    if |key| != AES_SIZE || !valid || |secrets| > MAXIMUM_LICENSE_INPUT - |license| - 1 {
      return Err(Error(InvalidArgument));
    }
    var input := new Byte[1 + |license| + |secrets|](_ => 0);
    input[0] := 0x01;
    Copy(license, input, 1);
    ghost var head := input[..1 + |license|];
    assert head == input[..1] + input[1..1 + |license|] == [0x01] + license;
    Copy(secrets, input, 1 + |license|);
    assert input[..] == head + input[1 + |license|..];
    assert input[..] == LicenseInput(license, secrets);
    r := Authenticated(cmac, key, input[..]);
  }

  /** Theorem: no two pairs of license and secrets are authenticated by the same input. */
  lemma LicenseInputIsInjective(license: seq<Byte>, secrets: seq<Byte>, license': seq<Byte>, secrets': seq<Byte>)
    requires IsLicense(license) && IsLicense(license')
    requires LicenseInput(license, secrets) == LicenseInput(license', secrets')
    ensures license == license' && secrets == secrets'
  {
    var input, input' := LicenseInput(license, secrets), LicenseInput(license', secrets');
    assert input[1] == license[0] && input'[1] == license'[0];
    assert license == input[1..1 + |license|] && license' == input'[1..1 + |license|];
    assert secrets == input[1 + |license|..] && secrets' == input'[1 + |license|..];
  }

  // ---------- Delegated applications ----------

  function Padded(name: seq<Byte>): (field: seq<Byte>)
    requires |name| <= 16
    ensures |field| == 17 && field[0] == |name| && field[1..1 + |name|] == name
    ensures forall i :: 1 + |name| <= i < 17 ==> field[i] == 0
  {
    [|name|] + name + seq(16 - |name|, _ => 0)
  }

  /** Two fixed fields of a length byte and sixteen zero-padded name bytes. */
  function ConfigurationInput(oldName: seq<Byte>, newName: seq<Byte>): (input: seq<Byte>)
    requires |oldName| <= 16 && |newName| <= 16
    ensures |input| == 34 && input[..17] == Padded(oldName) && input[17..] == Padded(newName)
  {
    Padded(oldName) + Padded(newName)
  }

  method FillField(input: array<Byte>, at: nat, name: seq<Byte>)
    requires |name| <= 16 && at + 17 <= input.Length
    requires forall i :: at <= i < at + 17 ==> input[i] == 0
    modifies input
    ensures input[..at] == old(input[..at]) && input[at..at + 17] == Padded(name)
    ensures forall i :: at + 17 <= i < input.Length ==> input[i] == old(input[i])
  {
    input[at] := |name|;
    assert input[..at] == old(input[..at]);
    Copy(name, input, at + 1);
    ghost var end := at + 1 + |name|;
    assert input[..at] == input[..at + 1][..at];
    forall i | end <= i < input.Length ensures input[i] == old(input[i]) {
      assert input[i] == input[end..][i - end];
    }
    assert input[at] == input[..at + 1][at];
    assert input[at..at + 17] == [input[at]] + input[at + 1..end] + input[end..at + 17];
  }

  method ConfigurationMac(cmac: Cmac, key: seq<Byte>, oldName: seq<Byte>, newName: seq<Byte>)
    returns (r: Result<seq<Byte>>)
    ensures |key| != 16 || |oldName| > 16 || |newName| > 16 ==> r == Err(Error(InvalidArgument))
    ensures |key| == 16 && |oldName| <= 16 && |newName| <= 16 ==>
              var full := Block(cmac(key, ConfigurationInput(oldName, newName)));
              (r.Ok? <==> full.Ok?) && if r.Ok? then r.value == OddBytes(full.value) else r == full
  {
    if |key| != AES_SIZE || |oldName| > 16 || |newName| > 16 {
      return Err(Error(InvalidArgument));
    }
    var input := new Byte[34](_ => 0);
    FillField(input, 0, oldName);
    FillField(input, 17, newName);
    assert input[0..17] == input[..17];
    assert input[..] == input[..17] + input[17..34];
    r := Authenticated(cmac, key, input[..]);
  }

  lemma PaddedIsInjective(name: seq<Byte>, name': seq<Byte>)
    requires |name| <= 16 && |name'| <= 16 && Padded(name) == Padded(name')
    ensures name == name'
  {
    assert Padded(name)[0] == |name| && Padded(name')[0] == |name'|;
    assert name == Padded(name)[1..1 + |name|] && name' == Padded(name')[1..1 + |name|];
  }

  /** Theorem: no two pairs of DF names are authenticated by the same input. */
  lemma ConfigurationInputIsInjective(oldName: seq<Byte>, newName: seq<Byte>, oldName': seq<Byte>, newName': seq<Byte>)
    requires |oldName| <= 16 && |newName| <= 16 && |oldName'| <= 16 && |newName'| <= 16
    requires ConfigurationInput(oldName, newName) == ConfigurationInput(oldName', newName')
    ensures oldName == oldName' && newName == newName'
  {
    var input, input' := ConfigurationInput(oldName, newName), ConfigurationInput(oldName', newName');
    assert input[..17] == Padded(oldName) && input[17..] == Padded(newName);
    assert input'[..17] == Padded(oldName') && input'[17..] == Padded(newName');
    PaddedIsInjective(oldName, oldName');
    PaddedIsInjective(newName, newName');
  }

  // ---------- Transaction MAC ----------

  datatype KeyKind = MacKey | EncryptionKey {
    function Label(): Byte {
      if MacKey? then 0x5A else 0xA5
    }
  }

  /** A number is its last digit to the base 256 and the rest. */
  lemma LastDigit(c: nat)
    ensures c == c % 256 + 256 * (c / 256)
  {
  }

  lemma FourDigits(c: nat)
    requires c < 0x1_0000_0000
    ensures c == c % 256 + 0x100 * ((c / 0x100) % 256) + 0x1_0000 * ((c / 0x1_0000) % 256)
                 + 0x100_0000 * ((c / 0x100_0000) % 256)
  {
    var c1, c2, c3 := c / 0x100, c / 0x1_0000, c / 0x100_0000;
    assert c2 == c1 / 256;
    assert c3 == c2 / 256;
    LastDigit(c);
    LastDigit(c1);
    LastDigit(c2);
    assert c3 % 256 == c3;
  }

  /** A 32-bit counter, low byte first. */
  function CounterBytes(counter: nat): (bytes: seq<Byte>)
    ensures |bytes| == 4
    ensures counter < 0x1_0000_0000 ==>
              counter == bytes[0] as int + 0x100 * (bytes[1] as int) + 0x1_0000 * (bytes[2] as int)
                         + 0x100_0000 * (bytes[3] as int)
  {
    assert counter < 0x1_0000_0000 ==>
             counter == counter % 256 + 0x100 * ((counter / 0x100) % 256) + 0x1_0000 * ((counter / 0x1_0000) % 256)
                        + 0x100_0000 * ((counter / 0x100_0000) % 256)
    by {
      if counter < 0x1_0000_0000 {
        FourDigits(counter);
      }
    }
    [counter % 256, (counter / 0x100) % 256, (counter / 0x10000) % 256, (counter / 0x1000000) % 256]
  }

  function DerivationVector(kind: KeyKind, counter: nat, uid: seq<Byte>): (vector: seq<Byte>)
    ensures |vector| == 9 + |uid| && vector[0] == (if kind.MacKey? then 0x5A else 0xA5)
    ensures vector[1..5] == [0x00, 0x01, 0x00, 0x80]
    ensures vector[5..9] == CounterBytes(counter) && vector[9..] == uid
  {
    [kind.Label(), 0x00, 0x01, 0x00, 0x80] + CounterBytes(counter) + uid
  }

  /** Theorem: every counter, UID and key kind has a derivation vector of its own, one block long. */
  lemma DerivationVectorIsInjective(kind: KeyKind, counter: nat, uid: seq<Byte>, kind': KeyKind, counter': nat,
                                    uid': seq<Byte>)
    requires counter < 0x100000000 && counter' < 0x100000000 && |uid| == |uid'| == 7
    ensures |DerivationVector(kind, counter, uid)| == AES_SIZE
    ensures DerivationVector(kind, counter, uid) == DerivationVector(kind', counter', uid') <==>
            kind == kind' && counter == counter' && uid == uid'
  {
    var v, v' := DerivationVector(kind, counter, uid), DerivationVector(kind', counter', uid');
    assert v[0] == kind.Label() && v'[0] == kind'.Label();
    assert v[5..9] == CounterBytes(counter) && v'[5..9] == CounterBytes(counter');
    assert v[9..] == uid && v'[9..] == uid';
  }

  datatype TransactionKeys = TransactionKeys(mac: seq<Byte>, encryption: seq<Byte>)

  predicate Derivable(key: seq<Byte>, uid: seq<Byte>, counter: nat) {
    |key| == AES_SIZE && |uid| == 7 && counter != 0
  }

  function Derived(cmac: Cmac, key: seq<Byte>, uid: seq<Byte>, counter: nat, kind: KeyKind): Result<seq<Byte>> {
    Block(cmac(key, DerivationVector(kind, counter, uid)))
  }

  /** What a right shift by eight times `index` divides by. */
  function Scale(index: nat): nat
    requires index < 4
  {
    if index == 0 then 1 else if index == 1 then 0x100 else if index == 2 then 0x10000 else 0x1000000
  }

  method FillCounter(vector: array<Byte>, counter: nat)
    requires vector.Length == 16
    modifies vector
    ensures vector[..5] == old(vector[..5]) && vector[5..9] == CounterBytes(counter)
  {
    for index := 0 to 4
      invariant forall i :: 0 <= i < 5 ==> vector[i] == old(vector[i])
      invariant forall i :: 0 <= i < index ==> vector[5 + i] == CounterBytes(counter)[i]
    {
      vector[5 + index] := (counter / Scale(index)) % 256;
    }
  }

  method FillVector(counter: nat, uid: seq<Byte>) returns (vector: array<Byte>)
    requires |uid| == 7
    ensures fresh(vector) && vector[..] == DerivationVector(MacKey, counter, uid)
  {
    vector := new Byte[16](_ => 0);
    vector[0], vector[2], vector[4] := 0x5A, 0x01, 0x80;
    assert vector[..5] == [0x5A, 0x00, 0x01, 0x00, 0x80];
    FillCounter(vector, counter);
    ghost var head := vector[..9];
    assert head == vector[..5] + vector[5..9];
    Copy(uid, vector, 9);
    assert vector[..] == head + vector[9..16];
  }

  method DeriveKeys(cmac: Cmac, key: seq<Byte>, uid: seq<Byte>, counter: nat) returns (r: Result<TransactionKeys>)
    ensures Derivable(key, uid, counter) <==> |key| == 16 && |uid| == 7 && counter != 0
    ensures r.Ok? <==> Derivable(key, uid, counter) && forall kind :: Derived(cmac, key, uid, counter, kind).Ok?
    ensures !Derivable(key, uid, counter) ==> r == Err(Error(InvalidArgument))
    ensures r.Err? && Derivable(key, uid, counter) ==>
              var mac := Derived(cmac, key, uid, counter, MacKey);
              var encryption := Derived(cmac, key, uid, counter, EncryptionKey);
              if mac.Err? then r.error == mac.error else encryption.Err? && r.error == encryption.error
    ensures r.Ok? ==> r.value.mac == Derived(cmac, key, uid, counter, MacKey).value
    ensures r.Ok? ==> r.value.encryption == Derived(cmac, key, uid, counter, EncryptionKey).value
  {
    if |key| != AES_SIZE || |uid| != 7 || counter == 0 {
      return Err(Error(InvalidArgument));
    }
    var vector := FillVector(counter, uid);
    var mac := Block(cmac(key, vector[..]));
    if mac.Err? {
      assert Derived(cmac, key, uid, counter, MacKey).Err?;
      return Err(mac.error);
    }
    vector[0] := 0xA5;
    assert vector[..] == DerivationVector(EncryptionKey, counter, uid);
    var encryption := Block(cmac(key, vector[..]));
    if encryption.Err? {
      assert Derived(cmac, key, uid, counter, EncryptionKey).Err?;
      return Err(encryption.error);
    }
    r := Ok(TransactionKeys(mac.value, encryption.value));
  }

  method TransactionMac(cmac: Cmac, key: seq<Byte>, input: seq<Byte>) returns (r: Result<seq<Byte>>)
    ensures r.Ok? <==> |key| == 16 && 0 < |input| <= 0x100_0000 && Block(cmac(key, input)).Ok?
    ensures r.Ok? ==> r.value == OddBytes(Block(cmac(key, input)).value)
    ensures r.Err? ==>
              r == if |key| == 16 && 0 < |input| <= 0x100_0000 then Block(cmac(key, input))
                   else Err(Error(InvalidArgument))
  {
    if |key| != AES_SIZE || |input| == 0 || |input| > MAXIMUM_INPUT_SIZE {
      return Err(Error(InvalidArgument));
    }
    r := Authenticated(cmac, key, input);
  }

  /** Theorem: exactly when verification gives an answer, and exactly when the answer is yes. */
  method VerifyTransactionMac(cmac: Cmac, key: seq<Byte>, uid: seq<Byte>, counter: nat, input: seq<Byte>,
                              mac: seq<Byte>)
    returns (r: Result<bool>)
    ensures r.Ok? <==>
            && |mac| == 8 && Derivable(key, uid, counter) && 0 < |input| <= 0x100_0000
            && Derived(cmac, key, uid, counter, EncryptionKey).Ok?
            && Derived(cmac, key, uid, counter, MacKey).Ok?
            && Block(cmac(Derived(cmac, key, uid, counter, MacKey).value, input)).Ok?
    ensures r.Ok? ==>
              var full := Block(cmac(Derived(cmac, key, uid, counter, MacKey).value, input)).value;
              r.value <==> forall i :: 0 <= i < 8 ==> mac[i] == full[2 * i + 1]
    // Which error, first reason first; both keys are derived before the input is looked at.
    ensures r.Err? ==>
              r.error == if |mac| != 8 || !Derivable(key, uid, counter) then Error(InvalidArgument)
                         else if Derived(cmac, key, uid, counter, MacKey).Err? then
                           Derived(cmac, key, uid, counter, MacKey).error
                         else if Derived(cmac, key, uid, counter, EncryptionKey).Err? then
                           Derived(cmac, key, uid, counter, EncryptionKey).error
                         else if |input| == 0 || |input| > 0x100_0000 then Error(InvalidArgument)
                         else Block(cmac(Derived(cmac, key, uid, counter, MacKey).value, input)).error
  {
    if |mac| != 8 {
      return Err(Error(InvalidArgument));
    }
    var keys := DeriveKeys(cmac, key, uid, counter);
    if keys.Err? {
      return Err(keys.error);
    }
    var computed := TransactionMac(cmac, keys.value.mac, input);
    if computed.Err? {
      return Err(computed.error);
    }
    var equal := Hex.ConstantTimeEqual(computed.value, mac);
    r := Ok(equal);
  }
}
