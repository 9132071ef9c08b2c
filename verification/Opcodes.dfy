/** The packet opcodes and which of them a client may send. */
module Opcodes {
  import opened Bits

  const DEBUG_STRING: Byte := 0x00
  const ACK: Byte := 0x02
  const D_HANDSHAKE: Byte := 0x03
  const STREAM_CONTROL: Byte := 0x04
  const HELLO_THERE: Byte := 0x08
  const ACTION_DUMP: Byte := 0x09
  const ACTION_UPDATE: Byte := 0x0A
  const CLIENT_PING: Byte := 0x0B
  const UDP_PING: Byte := 0x0C
  const UPDATE_ARRAY: Byte := 0x0E
  const VIEW_UPDATE: Byte := 0x0F
  const HELLO: Byte := 0x13
  const DELETE_OBJECT: Byte := 0x15
  const WORLD_STATS: Byte := 0x16
  const PLAYER: Byte := 0x17
  const TANK_SPAWN: Byte := 0x18
  const ADD_TO_ROSTER: Byte := 0x1A
  const UPDATE_STATS: Byte := 0x1C
  const BIRTH_NOTICE: Byte := 0x1E
  const CHAT_COMM: Byte := 0x20
  const LOGIN: Byte := 0x21
  const LOGIN_STATUS: Byte := 0x22
  const MOTD: Byte := 0x23
  const BEHAVIOR: Byte := 0x24
  const REINCARNATE: Byte := 0x25
  const TEAM_INFO: Byte := 0x28
  const DROP_REQUEST: Byte := 0x2B
  const GAME_CLOCK: Byte := 0x2F
  const TRANSLATION: Byte := 0x32
  const TRANSLATION_ACK: Byte := 0x33
  const VIEWPOINT: Byte := 0x35
  const WANT_UPDATES: Byte := 0x39
  const BEACON_REQUEST: Byte := 0x3A
  const IDENTIFIED_UDP: Byte := 0x4D
  const BPS: Byte := 0x4E
  const KUDOS: Byte := 0x4F
  const GENERIC: Byte := 0x54

  /** UPDATE_STATS is server to client only, so it is not in the list. */
  const KNOWN: seq<Byte> := [
    DEBUG_STRING, ACK, D_HANDSHAKE, HELLO_THERE,
    ACTION_DUMP, ACTION_UPDATE, CLIENT_PING, UDP_PING,
    UPDATE_ARRAY, VIEW_UPDATE, HELLO, DELETE_OBJECT,
    WORLD_STATS, PLAYER, TANK_SPAWN, ADD_TO_ROSTER,
    BIRTH_NOTICE, CHAT_COMM, LOGIN, LOGIN_STATUS,
    MOTD, BEHAVIOR, REINCARNATE, TEAM_INFO,
    DROP_REQUEST, GAME_CLOCK, TRANSLATION, TRANSLATION_ACK,
    VIEWPOINT, WANT_UPDATES, BEACON_REQUEST, IDENTIFIED_UDP,
    BPS, KUDOS, GENERIC
  ]

  predicate IsKnownOpcode(opcode: Byte) {
    opcode in KNOWN
  }
}
