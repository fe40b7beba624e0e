/**
 The byte strings that the program stores, abstracted to what it can read back from them.

 PEM and X.509 encodings are records: a key is an identity, a certificate names the key it certifies and
 the key that signed it. A nil slice and an empty one are both `Raw([])`; every check that looks for nil
 rejects the empty string as well.
 */
module Contents {

  /** A host as `net.ParseIP` sees it: a DNS name, or an address that is a name to nobody. */
  datatype Host = NoHost | DnsName(name: string) | IPv4(addr: int) | IPv6(addr6: int)

  /** A subject alternative name: an entry of DNSNames, or one of IPAddresses. */
  datatype AltName = DnsEntry(text: Host) | IpEntry(ip: Host)

  datatype Cert = Cert(
    key: int,            // the certified public key
    signer: int,         // the key whose signature it carries
    sans: set<AltName>,
    notBefore: int,      // seconds
    notAfter: int,
    isCA: bool)

  datatype Content =
    | Raw(bytes: seq<int>)
    | KeyPem(keyId: int, rsa: bool)
    | CertsPem(certs: seq<Cert>)

  const EMPTY := Raw([])

  datatype Option<+T> = None | Some(value: T)

  datatype Result<+T, +E> = Ok(value: T) | Err(error: E)
}
