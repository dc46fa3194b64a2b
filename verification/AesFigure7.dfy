/** Figure 7 of FIPS 197, from the turns of the loop that builds the player's tables. */
module AesFigure7 {
  import opened AesCipher
  import opened AesWalk
  import opened AesTables

  ghost function Entry(b: bv8): bv8 { SubByte(SBox(), b) }

  /** One turn: the byte met next, and its entry. */
  lemma Turn(k: nat, f: bv8, g: bv8)
    requires 1 <= k < 255 && F(k) == f && G(k) == g
    ensures F(k + 1) == Next(f) && G(k + 1) == Times5(g) && Entry(Next(f)) == Affine(Times5(g))
  {
    hide SBox, Affine, Next, Times5, SubByte;
    StandardAtTurn(k + 1);
  }

  lemma Turns0()
    ensures F(1) == 1 && G(1) == 1 && Entry(0) == 0x63 && Entry(1) == 0x7c
  {
    hide SBox, SubByte;
    StandardAtTurn(0);
    StandardAtTurn(1);
    assert F(0) == 0 && G(0) == 0 && Affine(0) == 0x63 && Affine(1) == 0x7c;
  }

  lemma Turns1()
    ensures Entry(0x52) == 0x00 && Entry(0xb4) == 0x8d && Entry(0x24) == 0x36 && Entry(0xfd) == 0x54
    ensures Entry(0x97) == 0x88 && Entry(0x7c) == 0x10 && Entry(0x4b) == 0xb3 && Entry(0x17) == 0xf0
    ensures Entry(0xf2) == 0x89 && Entry(0x94) == 0x22 && Entry(0x8a) == 0x7e && Entry(0x8c) == 0x64
    ensures Entry(0x7b) == 0x21 && Entry(0xee) == 0x28 && Entry(0x36) == 0x05 && Entry(0x0e) == 0xab
    ensures Entry(0x51) == 0xd1 && Entry(0x42) == 0x2c && Entry(0xe3) == 0x11 && Entry(0x91) == 0x81
    ensures Entry(0x8b) == 0x3d && Entry(0xde) == 0x1d && Entry(0xcf) == 0x8a && Entry(0xca) == 0x74
    ensures Entry(0xcb) == 0x1f && Entry(0x99) == 0xee && Entry(0x2d) == 0xd8 && Entry(0x09) == 0x01
    ensures Entry(0xf4) == 0xbf && Entry(0x63) == 0xfb && Entry(0x1f) == 0xc0 && Entry(0x54) == 0x20
    ensures F(33) == 0x54 && G(33) == 0x4c
  {
    hide Entry, F, G;
    Turns0();
    Turn(1, 0x01, 0x01); Turn(2, 0x52, 0x05); Turn(3, 0xb4, 0x11); Turn(4, 0x24, 0x55);
    Turn(5, 0xfd, 0x1a); Turn(6, 0x97, 0x72); Turn(7, 0x7c, 0xa1); Turn(8, 0x4b, 0x13);
    Turn(9, 0x17, 0x5f); Turn(10, 0xf2, 0x38); Turn(11, 0x94, 0xd8); Turn(12, 0x8a, 0x95);
    Turn(13, 0x8c, 0xf7); Turn(14, 0x7b, 0x06); Turn(15, 0xee, 0x1e); Turn(16, 0x36, 0x66);
    Turn(17, 0x0e, 0xe5); Turn(18, 0x51, 0x5c); Turn(19, 0x42, 0x37); Turn(20, 0xe3, 0xeb);
    Turn(21, 0x91, 0x6a); Turn(22, 0x8b, 0xd9); Turn(23, 0xde, 0x90); Turn(24, 0xcf, 0xe6);
    Turn(25, 0xca, 0x53); Turn(26, 0xcb, 0x04); Turn(27, 0x99, 0x14); Turn(28, 0x2d, 0x44);
    Turn(29, 0x09, 0x4f); Turn(30, 0xf4, 0x68); Turn(31, 0x63, 0xd3); Turn(32, 0x1f, 0xb2);
  }

  lemma Turns33()
    ensures Entry(0x43) == 0x1a && Entry(0xb1) == 0xc8 && Entry(0x25) == 0x3f && Entry(0xaf) == 0x79
    ensures Entry(0x23) == 0x26 && Entry(0x58) == 0x6a && Entry(0xb6) == 0x4e && Entry(0x80) == 0xcd
    ensures Entry(0x8e) == 0x19 && Entry(0xdf) == 0x9e && Entry(0x9d) == 0x5e && Entry(0x7e) == 0xf3
    ensures Entry(0xef) == 0xdf && Entry(0x64) == 0x43 && Entry(0xba) == 0xf4 && Entry(0x75) == 0x9d
    ensures Entry(0xbf) == 0x08 && Entry(0x74) == 0x92 && Entry(0xed) == 0x55 && Entry(0xc0) == 0xba
    ensures Entry(0xc9) == 0xdd && Entry(0x3d) == 0x27 && Entry(0x5e) == 0x58 && Entry(0x41) == 0x83
    ensures Entry(0x15) == 0x59 && Entry(0x56) == 0xb1 && Entry(0xe7) == 0x94 && Entry(0xc2) == 0x25
    ensures Entry(0x6d) == 0x3c && Entry(0x4e) == 0x2f && Entry(0x16) == 0x47 && Entry(0xa0) == 0xe0
    ensures F(65) == 0xa0 && G(65) == 0xfb
  {
    hide Entry, F, G;
    Turns1();
    Turn(33, 0x54, 0x4c); Turn(34, 0x43, 0x67); Turn(35, 0xb1, 0xe0); Turn(36, 0x25, 0x4d);
    Turn(37, 0xaf, 0x62); Turn(38, 0x23, 0xf1); Turn(39, 0x58, 0x18); Turn(40, 0xb6, 0x78);
    Turn(41, 0x80, 0x83); Turn(42, 0x8e, 0xb9); Turn(43, 0xdf, 0x6b); Turn(44, 0x9d, 0xdc);
    Turn(45, 0x7e, 0x81); Turn(46, 0xef, 0xb3); Turn(47, 0x64, 0x49); Turn(48, 0xba, 0x76);
    Turn(49, 0x75, 0xb5); Turn(50, 0xbf, 0x57); Turn(51, 0x74, 0x10); Turn(52, 0xed, 0x50);
    Turn(53, 0xc0, 0x0b); Turn(54, 0xc9, 0x27); Turn(55, 0x3d, 0xbb); Turn(56, 0x5e, 0x61);
    Turn(57, 0x41, 0xfe); Turn(58, 0x15, 0x2b); Turn(59, 0x56, 0x87); Turn(60, 0xe7, 0xad);
    Turn(61, 0xc2, 0x2f); Turn(62, 0x6d, 0x93); Turn(63, 0x4e, 0xe9); Turn(64, 0x16, 0x60);
  }

  lemma Turns65()
    ensures Entry(0x20) == 0xb7 && Entry(0xae) == 0xe4 && Entry(0x71) == 0xa3 && Entry(0xec) == 0xce
    ensures Entry(0x92) == 0x4f && Entry(0x7d) == 0xff && Entry(0x19) == 0xd4 && Entry(0xa3) == 0x0a
    ensures Entry(0xd6) == 0xf6 && Entry(0x69) == 0xf9 && Entry(0x1d) == 0xa4 && Entry(0xf0) == 0x8c
    ensures Entry(0x30) == 0x04 && Entry(0xf9) == 0x99 && Entry(0xc4) == 0x1c && Entry(0x9a) == 0xb8
    ensures Entry(0xdb) == 0xb9 && Entry(0xce) == 0x8b && Entry(0x98) == 0x46 && Entry(0x7f) == 0xd2
    ensures Entry(0xbd) == 0x7a && Entry(0xd0) == 0x70 && Entry(0x9e) == 0x0b && Entry(0x88) == 0xc4
    ensures Entry(0x28) == 0x34 && Entry(0x08) == 0x30 && Entry(0xa6) == 0x24 && Entry(0xd7) == 0x0e
    ensures Entry(0x3b) == 0xe2 && Entry(0xa9) == 0xd3 && Entry(0xd4) == 0x48 && Entry(0xcd) == 0xbd
    ensures F(97) == 0xcd && G(97) == 0xfc
  {
    hide Entry, F, G;
    Turns33();
    Turn(65, 0xa0, 0xfb); Turn(66, 0x20, 0x3a); Turn(67, 0xae, 0xd2); Turn(68, 0x71, 0xb7);
    Turn(69, 0xec, 0x5d); Turn(70, 0x92, 0x32); Turn(71, 0x7d, 0xfa); Turn(72, 0x19, 0x3f);
    Turn(73, 0xa3, 0xc3); Turn(74, 0xd6, 0xe2); Turn(75, 0x69, 0x47); Turn(76, 0x1d, 0x40);
    Turn(77, 0xf0, 0x5b); Turn(78, 0x30, 0x2c); Turn(79, 0xf9, 0x9c); Turn(80, 0xc4, 0xda);
    Turn(81, 0x9a, 0x9f); Turn(82, 0xdb, 0xd5); Turn(83, 0xce, 0xac); Turn(84, 0x98, 0x2a);
    Turn(85, 0x7f, 0x82); Turn(86, 0xbd, 0xbc); Turn(87, 0xd0, 0x7a); Turn(88, 0x9e, 0x89);
    Turn(89, 0x88, 0x9b); Turn(90, 0x28, 0xc1); Turn(91, 0x08, 0xe8); Turn(92, 0xa6, 0x65);
    Turn(93, 0xd7, 0xea); Turn(94, 0x3b, 0x6f); Turn(95, 0xa9, 0xc8); Turn(96, 0xd4, 0xc5);
  }

  lemma Turns97()
    ensures Entry(0x6e) == 0x9f && Entry(0xb8) == 0x6c && Entry(0xd1) == 0x3e && Entry(0xcc) == 0x4b
    ensures Entry(0x3c) == 0xeb && Entry(0x0c) == 0xfe && Entry(0xf5) == 0xe6 && Entry(0x31) == 0xc7
    ensures Entry(0xab) == 0x62 && Entry(0x70) == 0x51 && Entry(0xbe) == 0xae && Entry(0x26) == 0xf7
    ensures Entry(0x59) == 0xcb && Entry(0xe4) == 0x69 && Entry(0x34) == 0x18 && Entry(0xaa) == 0xac
    ensures Entry(0x22) == 0x93 && Entry(0x0a) == 0x67 && Entry(0x02) == 0x77 && Entry(0xa4) == 0x49
    ensures Entry(0x73) == 0x8f && Entry(0x48) == 0x52 && Entry(0xe1) == 0xf8 && Entry(0x35) == 0x96
    ensures Entry(0xf8) == 0x41 && Entry(0x96) == 0x90 && Entry(0x2e) == 0x31 && Entry(0xff) == 0x16
    ensures Entry(0x33) == 0xc3 && Entry(0x0f) == 0x76 && Entry(0x03) == 0x7b && Entry(0xf6) == 0x42
    ensures F(129) == 0xf6 && G(129) == 0x03
  {
    hide Entry, F, G;
    Turns65();
    Turn(97, 0xcd, 0xfc); Turn(98, 0x6e, 0x21); Turn(99, 0xb8, 0xa5); Turn(100, 0xd1, 0x07);
    Turn(101, 0xcc, 0x1b); Turn(102, 0x3c, 0x77); Turn(103, 0x0c, 0xb0); Turn(104, 0xf5, 0x46);
    Turn(105, 0x31, 0x45); Turn(106, 0xab, 0x4a); Turn(107, 0x70, 0x79); Turn(108, 0xbe, 0x86);
    Turn(109, 0x26, 0xa8); Turn(110, 0x59, 0x3e); Turn(111, 0xe4, 0xc6); Turn(112, 0x34, 0xf3);
    Turn(113, 0xaa, 0x12); Turn(114, 0x22, 0x5a); Turn(115, 0x0a, 0x29); Turn(116, 0x02, 0x8d);
    Turn(117, 0xa4, 0x8f); Turn(118, 0x73, 0x85); Turn(119, 0x48, 0xa7); Turn(120, 0xe1, 0x0d);
    Turn(121, 0x35, 0x39); Turn(122, 0xf8, 0xdd); Turn(123, 0x96, 0x84); Turn(124, 0x2e, 0xa2);
    Turn(125, 0xff, 0x1c); Turn(126, 0x33, 0x6c); Turn(127, 0x0f, 0xc7); Turn(128, 0x03, 0xf6);
  }

  lemma Turns129()
    ensures Entry(0xc7) == 0xc6 && Entry(0x6c) == 0x50 && Entry(0x1c) == 0x9c && Entry(0xa2) == 0x3a
    ensures Entry(0x84) == 0x5f && Entry(0xdd) == 0xc1 && Entry(0x39) == 0x12 && Entry(0x0d) == 0xd7
    ensures Entry(0xa7) == 0x5c && Entry(0x85) == 0x97 && Entry(0x8f) == 0x73 && Entry(0x8d) == 0x5d
    ensures Entry(0x29) == 0xa5 && Entry(0x5a) == 0xbe && Entry(0x12) == 0xc9 && Entry(0xf3) == 0x0d
    ensures Entry(0xc6) == 0xb4 && Entry(0x3e) == 0xb2 && Entry(0xa8) == 0xc2 && Entry(0x86) == 0x44
    ensures Entry(0x79) == 0xb6 && Entry(0x4a) == 0xd6 && Entry(0x45) == 0x6e && Entry(0x46) == 0x5a
    ensures Entry(0xb0) == 0xe7 && Entry(0x77) == 0xf5 && Entry(0x1b) == 0xaf && Entry(0x07) == 0xc5
    ensures Entry(0xa5) == 0x06 && Entry(0x21) == 0xfd && Entry(0xfc) == 0xb0 && Entry(0xc5) == 0xa6
    ensures F(161) == 0xc5 && G(161) == 0xd4
  {
    hide Entry, F, G;
    Turns97();
    Turn(129, 0xf6, 0x03); Turn(130, 0xc7, 0x0f); Turn(131, 0x6c, 0x33); Turn(132, 0x1c, 0xff);
    Turn(133, 0xa2, 0x2e); Turn(134, 0x84, 0x96); Turn(135, 0xdd, 0xf8); Turn(136, 0x39, 0x35);
    Turn(137, 0x0d, 0xe1); Turn(138, 0xa7, 0x48); Turn(139, 0x85, 0x73); Turn(140, 0x8f, 0xa4);
    Turn(141, 0x8d, 0x02); Turn(142, 0x29, 0x0a); Turn(143, 0x5a, 0x22); Turn(144, 0x12, 0xaa);
    Turn(145, 0xf3, 0x34); Turn(146, 0xc6, 0xe4); Turn(147, 0x3e, 0x59); Turn(148, 0xa8, 0x26);
    Turn(149, 0x86, 0xbe); Turn(150, 0x79, 0x70); Turn(151, 0x4a, 0xab); Turn(152, 0x45, 0x31);
    Turn(153, 0x46, 0xf5); Turn(154, 0xb0, 0x0c); Turn(155, 0x77, 0x3c); Turn(156, 0x1b, 0xcc);
    Turn(157, 0x07, 0xd1); Turn(158, 0xa5, 0xb8); Turn(159, 0x21, 0x6e); Turn(160, 0xfc, 0xcd);
  }

  lemma Turns161()
    ensures Entry(0xc8) == 0xe8 && Entry(0x6f) == 0xa8 && Entry(0xea) == 0x87 && Entry(0x65) == 0x4d
    ensures Entry(0xe8) == 0x9b && Entry(0xc1) == 0x78 && Entry(0x9b) == 0x14 && Entry(0x89) == 0xa7
    ensures Entry(0x7a) == 0xda && Entry(0xbc) == 0x65 && Entry(0x82) == 0x13 && Entry(0x2a) == 0xe5
    ensures Entry(0xac) == 0x91 && Entry(0xd5) == 0x03 && Entry(0x9f) == 0xdb && Entry(0xda) == 0x57
    ensures Entry(0x9c) == 0xde && Entry(0x2c) == 0x71 && Entry(0x5b) == 0x39 && Entry(0x40) == 0x09
    ensures Entry(0x47) == 0xa0 && Entry(0xe2) == 0x98 && Entry(0xc3) == 0x2e && Entry(0x3f) == 0x75
    ensures Entry(0xfa) == 0x2d && Entry(0x32) == 0x23 && Entry(0x5d) == 0x4c && Entry(0xb7) == 0xa9
    ensures Entry(0xd2) == 0xb5 && Entry(0x3a) == 0x80 && Entry(0xfb) == 0x0f && Entry(0x60) == 0xd0
    ensures F(193) == 0x60 && G(193) == 0x16
  {
    hide Entry, F, G;
    Turns129();
    Turn(161, 0xc5, 0xd4); Turn(162, 0xc8, 0xa9); Turn(163, 0x6f, 0x3b); Turn(164, 0xea, 0xd7);
    Turn(165, 0x65, 0xa6); Turn(166, 0xe8, 0x08); Turn(167, 0xc1, 0x28); Turn(168, 0x9b, 0x88);
    Turn(169, 0x89, 0x9e); Turn(170, 0x7a, 0xd0); Turn(171, 0xbc, 0xbd); Turn(172, 0x82, 0x7f);
    Turn(173, 0x2a, 0x98); Turn(174, 0xac, 0xce); Turn(175, 0xd5, 0xdb); Turn(176, 0x9f, 0x9a);
    Turn(177, 0xda, 0xc4); Turn(178, 0x9c, 0xf9); Turn(179, 0x2c, 0x30); Turn(180, 0x5b, 0xf0);
    Turn(181, 0x40, 0x1d); Turn(182, 0x47, 0x69); Turn(183, 0xe2, 0xd6); Turn(184, 0xc3, 0xa3);
    Turn(185, 0x3f, 0x19); Turn(186, 0xfa, 0x7d); Turn(187, 0x32, 0x92); Turn(188, 0x5d, 0xec);
    Turn(189, 0xb7, 0x71); Turn(190, 0xd2, 0xae); Turn(191, 0x3a, 0x20); Turn(192, 0xfb, 0xa0);
  }

  lemma Turns193()
    ensures Entry(0xe9) == 0x1e && Entry(0x93) == 0xdc && Entry(0x2f) == 0x15 && Entry(0xad) == 0x95
    ensures Entry(0x87) == 0x17 && Entry(0x2b) == 0xf1 && Entry(0xfe) == 0xbb && Entry(0x61) == 0xef
    ensures Entry(0xbb) == 0xea && Entry(0x27) == 0xcc && Entry(0x0b) == 0x2b && Entry(0x50) == 0x53
    ensures Entry(0x10) == 0xca && Entry(0x57) == 0x5b && Entry(0xb5) == 0xd5 && Entry(0x76) == 0x38
    ensures Entry(0x49) == 0x3b && Entry(0xb3) == 0x6d && Entry(0x81) == 0x0c && Entry(0xdc) == 0x86
    ensures Entry(0x6b) == 0x7f && Entry(0xb9) == 0x56 && Entry(0x83) == 0xec && Entry(0x78) == 0xbc
    ensures Entry(0x18) == 0xad && Entry(0xf1) == 0xa1 && Entry(0x62) == 0xaa && Entry(0x4d) == 0xe3
    ensures Entry(0xe0) == 0xe1 && Entry(0x67) == 0x85 && Entry(0x4c) == 0x29 && Entry(0xb2) == 0x37
    ensures F(225) == 0xb2 && G(225) == 0x1f
  {
    hide Entry, F, G;
    Turns161();
    Turn(193, 0x60, 0x16); Turn(194, 0xe9, 0x4e); Turn(195, 0x93, 0x6d); Turn(196, 0x2f, 0xc2);
    Turn(197, 0xad, 0xe7); Turn(198, 0x87, 0x56); Turn(199, 0x2b, 0x15); Turn(200, 0xfe, 0x41);
    Turn(201, 0x61, 0x5e); Turn(202, 0xbb, 0x3d); Turn(203, 0x27, 0xc9); Turn(204, 0x0b, 0xc0);
    Turn(205, 0x50, 0xed); Turn(206, 0x10, 0x74); Turn(207, 0x57, 0xbf); Turn(208, 0xb5, 0x75);
    Turn(209, 0x76, 0xba); Turn(210, 0x49, 0x64); Turn(211, 0xb3, 0xef); Turn(212, 0x81, 0x7e);
    Turn(213, 0xdc, 0x9d); Turn(214, 0x6b, 0xdf); Turn(215, 0xb9, 0x8e); Turn(216, 0x83, 0x80);
    Turn(217, 0x78, 0xb6); Turn(218, 0x18, 0x58); Turn(219, 0xf1, 0x23); Turn(220, 0x62, 0xaf);
    Turn(221, 0x4d, 0x25); Turn(222, 0xe0, 0xb1); Turn(223, 0x67, 0x43); Turn(224, 0x4c, 0x54);
  }

  lemma Turns225()
    ensures Entry(0xd3) == 0x66 && Entry(0x68) == 0x45 && Entry(0x4f) == 0x84 && Entry(0x44) == 0x1b
    ensures Entry(0x14) == 0xfa && Entry(0x04) == 0xf2 && Entry(0x53) == 0xed && Entry(0xe6) == 0x8e
    ensures Entry(0x90) == 0x60 && Entry(0xd9) == 0x35 && Entry(0x6a) == 0x02 && Entry(0xeb) == 0xe9
    ensures Entry(0x37) == 0x9a && Entry(0x5c) == 0x4a && Entry(0xe5) == 0xd9 && Entry(0x66) == 0x33
    ensures Entry(0x1e) == 0x72 && Entry(0x06) == 0x6f && Entry(0xf7) == 0x68 && Entry(0x95) == 0x2a
    ensures Entry(0xd8) == 0x61 && Entry(0x38) == 0x07 && Entry(0x5f) == 0xcf && Entry(0x13) == 0x7d
    ensures Entry(0xa1) == 0x32 && Entry(0x72) == 0x40 && Entry(0x1a) == 0xa2 && Entry(0x55) == 0xfc
    ensures Entry(0x11) == 0x82 && Entry(0x05) == 0x6b
    ensures F(255) == 0x05 && G(255) == 0x52
  {
    hide Entry, F, G;
    Turns193();
    Turn(225, 0xb2, 0x1f); Turn(226, 0xd3, 0x63); Turn(227, 0x68, 0xf4); Turn(228, 0x4f, 0x09);
    Turn(229, 0x44, 0x2d); Turn(230, 0x14, 0x99); Turn(231, 0x04, 0xcb); Turn(232, 0x53, 0xca);
    Turn(233, 0xe6, 0xcf); Turn(234, 0x90, 0xde); Turn(235, 0xd9, 0x8b); Turn(236, 0x6a, 0x91);
    Turn(237, 0xeb, 0xe3); Turn(238, 0x37, 0x42); Turn(239, 0x5c, 0x51); Turn(240, 0xe5, 0x0e);
    Turn(241, 0x66, 0x36); Turn(242, 0x1e, 0xee); Turn(243, 0x06, 0x7b); Turn(244, 0xf7, 0x8c);
    Turn(245, 0x95, 0x8a); Turn(246, 0xd8, 0x94); Turn(247, 0x38, 0xf2); Turn(248, 0x5f, 0x17);
    Turn(249, 0x13, 0x4b); Turn(250, 0xa1, 0x7c); Turn(251, 0x72, 0x97); Turn(252, 0x1a, 0xfd);
    Turn(253, 0x55, 0x24); Turn(254, 0x11, 0xb4);
  }

  /** The figure, two rows at a time. */
  lemma Rows0()
    ensures SBox()[0..16] ==
      [0x63, 0x7c, 0x77, 0x7b, 0xf2, 0x6b, 0x6f, 0xc5, 0x30, 0x01, 0x67, 0x2b, 0xfe, 0xd7, 0xab, 0x76]
    ensures SBox()[16..32] ==
      [0xca, 0x82, 0xc9, 0x7d, 0xfa, 0x59, 0x47, 0xf0, 0xad, 0xd4, 0xa2, 0xaf, 0x9c, 0xa4, 0x72, 0xc0]
  {
    hide SBox, F, G;
    Turns0();
    Turns1();
    Turns33();
    Turns65();
    Turns97();
    Turns129();
    Turns161();
    Turns193();
    Turns225();
  }

  lemma Rows2()
    ensures SBox()[32..48] ==
      [0xb7, 0xfd, 0x93, 0x26, 0x36, 0x3f, 0xf7, 0xcc, 0x34, 0xa5, 0xe5, 0xf1, 0x71, 0xd8, 0x31, 0x15]
    ensures SBox()[48..64] ==
      [0x04, 0xc7, 0x23, 0xc3, 0x18, 0x96, 0x05, 0x9a, 0x07, 0x12, 0x80, 0xe2, 0xeb, 0x27, 0xb2, 0x75]
  {
    hide SBox, F, G;
    Turns0();
    Turns1();
    Turns33();
    Turns65();
    Turns97();
    Turns129();
    Turns161();
    Turns193();
    Turns225();
  }

  lemma Rows4()
    ensures SBox()[64..80] ==
      [0x09, 0x83, 0x2c, 0x1a, 0x1b, 0x6e, 0x5a, 0xa0, 0x52, 0x3b, 0xd6, 0xb3, 0x29, 0xe3, 0x2f, 0x84]
    ensures SBox()[80..96] ==
      [0x53, 0xd1, 0x00, 0xed, 0x20, 0xfc, 0xb1, 0x5b, 0x6a, 0xcb, 0xbe, 0x39, 0x4a, 0x4c, 0x58, 0xcf]
  {
    hide SBox, F, G;
    Turns0();
    Turns1();
    Turns33();
    Turns65();
    Turns97();
    Turns129();
    Turns161();
    Turns193();
    Turns225();
  }

  lemma Rows6()
    ensures SBox()[96..112] ==
      [0xd0, 0xef, 0xaa, 0xfb, 0x43, 0x4d, 0x33, 0x85, 0x45, 0xf9, 0x02, 0x7f, 0x50, 0x3c, 0x9f, 0xa8]
    ensures SBox()[112..128] ==
      [0x51, 0xa3, 0x40, 0x8f, 0x92, 0x9d, 0x38, 0xf5, 0xbc, 0xb6, 0xda, 0x21, 0x10, 0xff, 0xf3, 0xd2]
  {
    hide SBox, F, G;
    Turns0();
    Turns1();
    Turns33();
    Turns65();
    Turns97();
    Turns129();
    Turns161();
    Turns193();
    Turns225();
  }

  lemma Rows8()
    ensures SBox()[128..144] ==
      [0xcd, 0x0c, 0x13, 0xec, 0x5f, 0x97, 0x44, 0x17, 0xc4, 0xa7, 0x7e, 0x3d, 0x64, 0x5d, 0x19, 0x73]
    ensures SBox()[144..160] ==
      [0x60, 0x81, 0x4f, 0xdc, 0x22, 0x2a, 0x90, 0x88, 0x46, 0xee, 0xb8, 0x14, 0xde, 0x5e, 0x0b, 0xdb]
  {
    hide SBox, F, G;
    Turns0();
    Turns1();
    Turns33();
    Turns65();
    Turns97();
    Turns129();
    Turns161();
    Turns193();
    Turns225();
  }

  lemma Rows10()
    ensures SBox()[160..176] ==
      [0xe0, 0x32, 0x3a, 0x0a, 0x49, 0x06, 0x24, 0x5c, 0xc2, 0xd3, 0xac, 0x62, 0x91, 0x95, 0xe4, 0x79]
    ensures SBox()[176..192] ==
      [0xe7, 0xc8, 0x37, 0x6d, 0x8d, 0xd5, 0x4e, 0xa9, 0x6c, 0x56, 0xf4, 0xea, 0x65, 0x7a, 0xae, 0x08]
  {
    hide SBox, F, G;
    Turns0();
    Turns1();
    Turns33();
    Turns65();
    Turns97();
    Turns129();
    Turns161();
    Turns193();
    Turns225();
  }

  lemma Rows12()
    ensures SBox()[192..208] ==
      [0xba, 0x78, 0x25, 0x2e, 0x1c, 0xa6, 0xb4, 0xc6, 0xe8, 0xdd, 0x74, 0x1f, 0x4b, 0xbd, 0x8b, 0x8a]
    ensures SBox()[208..224] ==
      [0x70, 0x3e, 0xb5, 0x66, 0x48, 0x03, 0xf6, 0x0e, 0x61, 0x35, 0x57, 0xb9, 0x86, 0xc1, 0x1d, 0x9e]
  {
    hide SBox, F, G;
    Turns0();
    Turns1();
    Turns33();
    Turns65();
    Turns97();
    Turns129();
    Turns161();
    Turns193();
    Turns225();
  }

  lemma Rows14()
    ensures SBox()[224..240] ==
      [0xe1, 0xf8, 0x98, 0x11, 0x69, 0xd9, 0x8e, 0x94, 0x9b, 0x1e, 0x87, 0xe9, 0xce, 0x55, 0x28, 0xdf]
    ensures SBox()[240..256] ==
      [0x8c, 0xa1, 0x89, 0x0d, 0xbf, 0xe6, 0x42, 0x68, 0x41, 0x99, 0x2d, 0x0f, 0xb0, 0x54, 0xbb, 0x16]
  {
    hide SBox, F, G;
    Turns0();
    Turns1();
    Turns33();
    Turns65();
    Turns97();
    Turns129();
    Turns161();
    Turns193();
    Turns225();
  }
}
