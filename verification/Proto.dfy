/** Sizes and constants of the radio's wire format. A channel id is one byte, a
    record length two bytes in network order, and the structures are packed. */
module Proto {
  type byte = x: int | 0 <= x < 256

  const CHNLIST: byte := 0
  const MINCHNID: byte := 1
  const MAXCHNID: byte := 100

  const CHNID_SIZE := 1
  const MSG_CHNPACK_MAX := 65536 - 20 - 8
  const MAX_DATA := MSG_CHNPACK_MAX - CHNID_SIZE
  const MSG_LISTPACK_MAX := 65536 - 20 - 8

  /** sizeof(struct msg_channel_st): the id and the first data byte. */
  const CHANNEL_HEAD := 2
  /** sizeof(struct msg_listinfo_t): id, length, and the first description byte. */
  const RECORD_HEAD := 4
  /** sizeof(struct msg_list_st): the id and one record head. */
  const LIST_HEAD := 5
}
