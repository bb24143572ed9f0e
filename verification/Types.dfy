/**
  The records of core/types. Addresses and hashes are the bytes their hexadecimal text
  denotes; the empty byte string stands for the empty text. A block number in a block
  record is decimal text, as in the source.
 */
module Types {
  import opened ByteStrings

  // common.AddressZero, gethcommon.AddressLength and gethcommon.HashLength
  const ADDRESS_LENGTH := 20
  const HASH_LENGTH := 32

  function AddressZero(): (zero: Bytes)
    ensures |zero| == ADDRESS_LENGTH && forall i :: 0 <= i < |zero| ==> zero[i] == 0
  {
    seq(ADDRESS_LENGTH, _ => 0)
  }

  datatype TransactionDetail = TransactionDetail(from: Bytes, to: Bytes, txHash: Bytes, value: int)

  datatype BlockDetail = BlockDetail(number: nat, time: int, transactions: seq<TransactionDetail>)

  datatype AddressSequence = AddressSequence(address: Bytes, sequence: Byte)

  datatype AddressIndex =
    AddressIndex(address: Bytes, sequence: Byte, txHash: Bytes, value: int, time: int, coupleAddress: Bytes)

  datatype BlockIndex =
    BlockIndex(blockNumber: Bytes, addresses: seq<AddressSequence>, time: int, createdAt: int)

  datatype KeyValue = KeyValue(key: Bytes, value: Bytes)
}
