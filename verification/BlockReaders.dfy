/** The two block readers behind the one set of calls that the object reader makes. */
module BlockReaders {
  import opened Bytes
  import opened BlockSpec
  import opened ReaderSpec
  import opened BlockModule
  import opened MultithreadedCalls

  datatype BlockReader<!A> =
    | SingleThreaded(st: BlockCompressReader<A>)
    | MultiThreaded(mt: BlockCompressReaderMT)
  {
    ghost function Decoder(): Codec {
      match this
      case SingleThreaded(r) => r.codec
      case MultiThreaded(r) => r.codec
    }

    ghost function Repr(): set<object> {
      match this
      case SingleThreaded(r) => r.Repr()
      case MultiThreaded(r) => {r}
    }

    ghost predicate Valid()
      reads Repr()
    {
      match this
      case SingleThreaded(r) => r.Valid()
      case MultiThreaded(r) => r.Valid()
    }

    ghost function Abs(): Reader
      requires Valid()
      reads Repr()
    {
      match this
      case SingleThreaded(r) => r.Abs()
      case MultiThreaded(r) => r.Abs()
    }

    /** How an error is reported. */
    ghost function Raised(e: Error): Error {
      if MultiThreaded? then Told(e) else e
    }

    /** What a call did, against the function that says what it should do. */
    ghost predicate Did<T>(r: Result<T>, spec: Result<(T, Reader)>)
      reads Repr()
    {
      match r
      case Ok(v) => Valid() && spec == Ok((v, Abs()))
      case Err(e) => Failed(e, spec)
    }

    ghost predicate Failed<T>(e: Error, spec: Result<T>) {
      spec.Err? && e == Raised(spec.error)
    }

    method GetPod(n: nat) returns (r: Result<bytes>)
      requires Valid()
      modifies Repr()
      ensures Did(r, ReaderSpec.GetPod(Decoder(), old(Abs()), n))
    {
      match this
      case SingleThreaded(reader) => r := reader.GetPod(n);
      case MultiThreaded(reader) => r := reader.GetPod(n);
    }

    method GetPodContiguous(n: nat) returns (r: Result<bytes>)
      requires Valid()
      modifies Repr()
      ensures Did(r, ReaderSpec.GetPodContiguous(old(Abs()), n))
    {
      match this
      case SingleThreaded(reader) => r := reader.GetPodContiguous(n);
      case MultiThreaded(reader) => r := reader.GetPodContiguous(n);
    }

    method GetData(out: array<byte>, from: nat, len: nat) returns (r: Result<()>)
      requires Valid() && from + len <= out.Length && out !in Repr()
      modifies Repr(), out
      ensures out[..from] == old(out[..from]) && out[from + len..] == old(out[from + len..])
      ensures r.Ok? ==> Valid()
      ensures r.Ok? ==>
        GetDataInto(Decoder(), old(Abs()), old(out[from..from + len])) == Ok((out[from..from + len], Abs()))
      ensures r.Err? ==> Failed(r.error, GetDataInto(Decoder(), old(Abs()), old(out[from..from + len])))
    {
      match this
      case SingleThreaded(reader) => r := reader.GetData(out, from, len);
      case MultiThreaded(reader) => r := reader.GetData(out, from, len);
    }
  }
}
