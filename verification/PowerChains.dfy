/**
 Chains of squarings that lead to the powers of x on which its order turns:
 x^(2^32), for each prime factor p of 2^32 - 1 a power that would not change
 under a further power if x^((2^32 - 1) / p) were 1, and the power that is the
 checksum's start value.
 */
module PowerChains {
  import opened CrcPowers

  lemma Doublings0(e: nat)
    requires Power(e) == 0x4000_0000
    ensures Power(256 * e) == 0xED62_7DAE
  {
    hide Power, Square;
    Doubled(e, 0x4000_0000, 0x2000_0000, 0x0000_0000, 0x0000_0000, 0x0000_0000, 0x2000_0000);
    Doubled(2 * e, 0x2000_0000, 0x0800_0000, 0x0000_0000, 0x0000_0000, 0x0000_0000, 0x0800_0000);
    Doubled(4 * e, 0x0800_0000, 0x0080_0000, 0x0000_0000, 0x0000_0000, 0x0000_0000, 0x0080_0000);
    Doubled(8 * e, 0x0080_0000, 0x0000_0000, 0x0000_8000, 0x0000_0000, 0x0000_0000, 0x0000_8000);
    Doubled(16 * e, 0x0000_8000, 0x0000_0000, 0x0000_0000, 0xEDB8_8320, 0x0000_0000, 0xEDB8_8320);
    Doubled(32 * e, 0xEDB8_8320, 0xA8A2_0000, 0x0000_8A80, 0x1757_6BAA, 0x0E13_51B8, 0xB1E6_B092);
    Doubled(64 * e, 0xB1E6_B092, 0x8A02_0000, 0x0000_A828, 0x0D6D_6A3E, 0x2705_E701, 0xA06A_2517);
    Doubled(128 * e, 0xA06A_2517, 0x8800_0000, 0x0000_2888, 0xA969_CE12, 0xCC0B_9B34, 0xED62_7DAE);
  }

  lemma Doublings1(e: nat)
    requires Power(e) == 0xED62_7DAE
    ensures Power(256 * e) == 0x8385_2D0F
  {
    hide Power, Square;
    Doubled(e, 0xED62_7DAE, 0xA8A2_0000, 0x0000_2808, 0x478A_17BD, 0x67F9_7BD2, 0x88D1_4467);
    Doubled(2 * e, 0x88D1_4467, 0x8080_0000, 0x0000_A202, 0xAEEA_046A, 0xF9D1_5802, 0xD7BB_FE6A);
    Doubled(4 * e, 0xD7BB_FE6A, 0xA22A_0000, 0x0000_8A8A, 0x50DD_7C17, 0x1EB3_898C, 0xEC44_7F11);
    Doubled(8 * e, 0xEC44_7F11, 0xA8A0_0000, 0x0000_2020, 0x8F53_9DB5, 0xA98D_1CE5, 0x8E7E_A170);
    Doubled(16 * e, 0x8E7E_A170, 0x80A8_0000, 0x0000_2AA8, 0xD155_6990, 0x35DA_C336, 0x6427_800E);
    Doubled(32 * e, 0x6427_800E, 0x2820_0000, 0x0000_082A, 0xEDB8_8320, 0x88DF_31EA, 0x4D47_BAE0);
    Doubled(64 * e, 0x4D47_BAE0, 0x20A2_0000, 0x0000_202A, 0xFE37_787D, 0xD76B_0CD8, 0x09FE_548F);
    Doubled(128 * e, 0x09FE_548F, 0x0082_0000, 0x0000_AAA8, 0x40E4_6546, 0xC3E3_E2E1, 0x8385_2D0F);
  }

  lemma Doublings2(e: nat)
    requires Power(e) == 0x8385_2D0F
    ensures Power(256 * e) == 0xBAD9_0E37
  {
    hide Power, Square;
    Doubled(e, 0x8385_2D0F, 0x800A_0000, 0x0000_8022, 0x92EA_5659, 0x22D6_F961, 0x3036_2F1A);
    Doubled(2 * e, 0x3036_2F1A, 0x0A00_0000, 0x0000_0A28, 0x5A33_DC51, 0x2B69_4ABA, 0x7B5A_9CC3);
    Doubled(4 * e, 0x7B5A_9CC3, 0x2A8A_0000, 0x0000_2288, 0xADB1_5EE5, 0xB6C5_BD04, 0x31FE_C169);
    Doubled(8 * e, 0x31FE_C169, 0x0A02_0000, 0x0000_AAA8, 0xE4E0_C16A, 0x710E_69E8, 0x9FEC_022A);
    Doubled(16 * e, 0x9FEC_022A, 0x82AA_0000, 0x0000_A8A0, 0xC8D9_8A08, 0x26FE_CF6C, 0x6C8D_EDC4);
    Doubled(32 * e, 0x6C8D_EDC4, 0x28A0_0000, 0x0000_80A2, 0x443C_F5B1, 0x794A_F25E, 0x15D6_874D);
    Doubled(64 * e, 0x15D6_874D, 0x0222_0000, 0x0000_A228, 0x82D3_4F08, 0xDF2F_976E, 0x5FDE_7A4E);
    Doubled(128 * e, 0x5FDE_7A4E, 0x22AA_0000, 0x0000_A2A8, 0x28E1_DB95, 0xB092_770A, 0xBAD9_0E37);
  }

  lemma Doublings3(e: nat)
    requires Power(e) == 0xBAD9_0E37
    ensures Power(256 * e) == 0x4000_0000
  {
    hide Power, Square;
    Doubled(e, 0xBAD9_0E37, 0x8A88_0000, 0x0000_A282, 0x66DE_36E1, 0xC218_CA8C, 0x2E4E_5EEF);
    Doubled(2 * e, 0x2E4E_5EEF, 0x08A8_0000, 0x0000_20A8, 0xB3BE_7705, 0xF5BD_F5B9, 0x4EAB_A214);
    Doubled(4 * e, 0x4EAB_A214, 0x20A8_0000, 0x0000_888A, 0x2BBA_811A, 0xA3B6_7B50, 0xA8A4_72C0);
    Doubled(8 * e, 0xA8A4_72C0, 0x8880_0000, 0x0000_8820, 0x1362_43DE, 0xD978_5D60, 0x429A_969E);
    Doubled(16 * e, 0x429A_969E, 0x2008_0000, 0x0000_8288, 0x5EEB_4CA6, 0x6A6E_FE04, 0x148D_302A);
    Doubled(32 * e, 0x148D_302A, 0x0220_0000, 0x0000_80A2, 0xE0D5_E91E, 0x26FE_CF6C, 0xC40B_A6D0);
    Doubled(64 * e, 0xC40B_A6D0, 0xA020_0000, 0x0000_008A, 0xBE3E_A5B8, 0xDAFC_890E, 0xC4E2_2C3C);
    Doubled(128 * e, 0xC4E2_2C3C, 0xA020_0000, 0x0000_A808, 0xA0DC_34DB, 0x40FC_9CD3, 0x4000_0000);
  }

  lemma SubfieldOf16(e: nat)
    requires Power(e) == 0xAC7A_15A7
    ensures Power(256 * e) == 0x4630_D51A
  {
    hide Power, Square;
    Doubled(e, 0xAC7A_15A7, 0x88A0_0000, 0x0000_2A88, 0x49BC_270C, 0x20A9_0562, 0xE1B5_08E6);
    Doubled(2 * e, 0xE1B5_08E6, 0xA802_0000, 0x0000_8A22, 0x3B83_984B, 0xB2ED_8B09, 0x216C_9960);
    Doubled(4 * e, 0x216C_9960, 0x0802_0000, 0x0000_28A0, 0x0A03_18C5, 0x365E_1758, 0x345F_273D);
    Doubled(8 * e, 0x345F_273D, 0x0A20_0000, 0x0000_22AA, 0x61B0_441A, 0xEAF5_5458, 0x8165_32E8);
    Doubled(16 * e, 0x8165_32E8, 0x8002_0000, 0x0000_2822, 0x280C_6316, 0x3A32_BAE3, 0x923C_F1D7);
    Doubled(32 * e, 0x923C_F1D7, 0x8208_0000, 0x0000_0AA0, 0x0435_2874, 0x1573_C654, 0x934E_E480);
    Doubled(64 * e, 0x934E_E480, 0x820A_0000, 0x0000_20A8, 0x4D89_0F78, 0xE135_1B80, 0x2EB6_3450);
    Doubled(128 * e, 0x2EB6_3450, 0x08A8_0000, 0x0000_8A28, 0x7551_CDBC, 0x3BC9_928E, 0x4630_D51A);
  }

  lemma SubfieldOf8Step0(e: nat)
    requires Power(e) == 0x76B1_3ED7
    ensures Power(256 * e + 1) == 0xB898_D242
  {
    hide Power, Square;
    Doubled(e, 0x76B1_3ED7, 0x2A28_0000, 0x0000_8A02, 0x860B_DFFF, 0x1573_C654, 0xB950_93A9);
    Doubled(2 * e, 0xB950_93A9, 0x8A82_0000, 0x0000_2200, 0xF959_0A86, 0xA876_3488, 0xDBAD_1C0E);
    Doubled(4 * e, 0xDBAD_1C0E, 0xA28A_0000, 0x0000_88A2, 0x4009_DDC5, 0x88DF_31EA, 0x6A5C_648D);
    Doubled(8 * e, 0x6A5C_648D, 0x2888_0000, 0x0000_22A0, 0xA031_8C58, 0x0657_CA0E, 0x8EEE_64F6);
    Doubled(16 * e, 0x8EEE_64F6, 0x80A8_0000, 0x0000_A8A8, 0xA031_8C58, 0xB169_5F67, 0x91F0_7B97);
    Doubled(32 * e, 0x91F0_7B97, 0x8202_0000, 0x0000_AA00, 0x1AD7_B917, 0x2D3E_80B4, 0xB5EB_93A3);
    Doubled(64 * e, 0xB5EB_93A3, 0x8A22_0000, 0x0000_A88A, 0xF959_0A86, 0x809B_AA5C, 0xF3E0_0850);
    Doubled(128 * e, 0xF3E0_0850, 0xAA0A_0000, 0x0000_A800, 0x3B83_984B, 0x3BC9_928E, 0xAA40_A2C5);
    Followed(256 * e, 0xAA40_A2C5, 0xB898_D242);
  }

  lemma SubfieldOf8Step1(e: nat)
    requires Power(e) == 0xB898_D242
    ensures Power(256 * e + 1) == 0x316B_5BA1
  {
    hide Power, Square;
    Doubled(e, 0xB898_D242, 0x8A80_0000, 0x0000_8280, 0xF001_48CC, 0xFDF9_6E0F, 0x8778_A443);
    Doubled(2 * e, 0x8778_A443, 0x802A_0000, 0x0000_2A80, 0x76E7_2FB0, 0x57F0_A684, 0xA13D_A3B4);
    Doubled(4 * e, 0xA13D_A3B4, 0x8802_0000, 0x0000_0AA2, 0x198C_E398, 0x4C90_3168, 0xDD1E_D852);
    Doubled(8 * e, 0xDD1E_D852, 0xA2A2_0000, 0x0000_02A8, 0x035B_5A8F, 0xFE7D_BA61, 0x5F84_E246);
    Doubled(16 * e, 0x5F84_E246, 0x22AA_0000, 0x0000_8020, 0x10D4_A1D2, 0x5DCB_C131, 0x6FB5_E0C3);
    Doubled(32 * e, 0x6FB5_E0C3, 0x28AA_0000, 0x0000_8A22, 0xD80D_2BDA, 0xB6C5_BD04, 0x4662_1CFC);
    Doubled(64 * e, 0x4662_1CFC, 0x2028_0000, 0x0000_2808, 0x4009_DDC5, 0x9984_C1B3, 0xF9A5_347E);
    Doubled(128 * e, 0xF9A5_347E, 0xAA82_0000, 0x0000_8822, 0x7551_CDBC, 0xBD05_F2DC, 0x62D6_B742);
    Followed(256 * e, 0x62D6_B742, 0x316B_5BA1);
  }

  lemma SubfieldOf8(e: nat)
    requires Power(e) == 0x316B_5BA1
    ensures Power(16 * e) == 0x0C28_3CA0
  {
    hide Power, Square;
    Doubled(e, 0x316B_5BA1, 0x0A02_0000, 0x0000_288A, 0x140C_3125, 0x452F_82B3, 0x5B21_9B1C);
    Doubled(2 * e, 0x5B21_9B1C, 0x228A_0000, 0x0000_0802, 0xC2DA_92CD, 0x4EEF_CD6B, 0xAEBF_57A4);
    Doubled(4 * e, 0xAEBF_57A4, 0x88A8_0000, 0x0000_8AAA, 0xBA0B_8DCC, 0x4F14_E506, 0x7DB7_E260);
    Doubled(8 * e, 0x7DB7_E260, 0x2AA2_0000, 0x0000_8A2A, 0x10D4_A1D2, 0x365E_1758, 0x0C28_3CA0);
  }

  lemma SubfieldOf4Step0(e: nat)
    requires Power(e) == 0x4000_0000
    ensures Power(256 * e + 17) == 0x0F18_38C2
  {
    hide Power, Square;
    Doubled(e, 0x4000_0000, 0x2000_0000, 0x0000_0000, 0x0000_0000, 0x0000_0000, 0x2000_0000);
    Doubled(2 * e, 0x2000_0000, 0x0800_0000, 0x0000_0000, 0x0000_0000, 0x0000_0000, 0x0800_0000);
    Doubled(4 * e, 0x0800_0000, 0x0080_0000, 0x0000_0000, 0x0000_0000, 0x0000_0000, 0x0080_0000);
    Doubled(8 * e, 0x0080_0000, 0x0000_0000, 0x0000_8000, 0x0000_0000, 0x0000_0000, 0x0000_8000);
    Followed(16 * e, 0x0000_8000, 0x0000_4000);
    Doubled(16 * e + 1, 0x0000_4000, 0x0000_0000, 0x0000_0000, 0x3B6E_20C8, 0x0000_0000, 0x3B6E_20C8);
    Doubled(32 * e + 2, 0x3B6E_20C8, 0x0A8A_0000, 0x0000_28A8, 0x0EDB_8832, 0x3421_EB5B, 0x3070_4BC1);
    Doubled(64 * e + 4, 0x3070_4BC1, 0x0A00_0000, 0x0000_2A00, 0xFA02_5009, 0x7371_95EB, 0x8373_EFE2);
    Doubled(128 * e + 8, 0x8373_EFE2, 0x800A_0000, 0x0000_2A0A, 0x8CE5_7FB9, 0x12DF_2437, 0x1E30_7184);
    Followed(256 * e + 16, 0x1E30_7184, 0x0F18_38C2);
  }

  lemma SubfieldOf4Step1(e: nat)
    requires Power(e) == 0x0F18_38C2
    ensures Power(256 * e + 17) == 0xEC4F_BE80
  {
    hide Power, Square;
    Doubled(e, 0x0F18_38C2, 0x00AA_0000, 0x0000_0280, 0xDB56_7155, 0x1CCC_758F, 0xC730_065A);
    Doubled(2 * e, 0xC730_065A, 0xA02A_0000, 0x0000_0A00, 0x5D5D_AEAA, 0x1324_0C5A, 0xEE53_A8F0);
    Doubled(4 * e, 0xEE53_A8F0, 0xA8A8_0000, 0x0000_220A, 0xD8E0_9359, 0xD4EF_D8B6, 0xA4A7_69E5);
    Doubled(8 * e, 0xA4A7_69E5, 0x8820_0000, 0x0000_882A, 0x3C00_5233, 0xDD50_6B6D, 0x6970_B174);
    Followed(16 * e, 0x6970_B174, 0x34B8_58BA);
    Doubled(16 * e + 1, 0x34B8_58BA, 0x0A20_0000, 0x0000_8A80, 0xEEE3_D9AF, 0xC44F_0082, 0x208C_53AD);
    Doubled(32 * e + 2, 0x208C_53AD, 0x0800_0000, 0x0000_80A0, 0x2F8F_A96E, 0x0844_9BB6, 0x2FCB_B278);
    Doubled(64 * e + 4, 0x2FCB_B278, 0x08AA_0000, 0x0000_A08A, 0xC5B4_E036, 0xD883_750D, 0x159D_35B1);
    Doubled(128 * e + 8, 0x159D_35B1, 0x0222_0000, 0x0000_82A2, 0x4767_AF3E, 0x46AB_56DD, 0x03EE_7B41);
    Followed(256 * e + 16, 0x03EE_7B41, 0xEC4F_BE80);
  }

  lemma SubfieldOf4Step2(e: nat)
    requires Power(e) == 0xEC4F_BE80
    ensures Power(256 * e + 17) == 0xEF5E_8517
  {
    hide Power, Square;
    Doubled(e, 0xEC4F_BE80, 0xA8A0_0000, 0x0000_20AA, 0x6BB3_5CDF, 0xE135_1B80, 0x2226_67F5);
    Doubled(2 * e, 0x2226_67F5, 0x0808_0000, 0x0000_0828, 0x5ADE_64D2, 0xDED4_BF03, 0x8C02_D3F9);
    Doubled(4 * e, 0x8C02_D3F9, 0x80A0_0000, 0x0000_0008, 0xC237_2A4E, 0x93BF_A606, 0xD128_8C40);
    Doubled(8 * e, 0xD128_8C40, 0xA202_0000, 0x0000_0880, 0x43BF_3FC9, 0x384D_46E0, 0xD9F0_71A9);
    Followed(16 * e, 0xD9F0_71A9, 0x8140_BBF4);
    Doubled(16 * e + 1, 0x8140_BBF4, 0x8002_0000, 0x0000_2000, 0xCC01_1AFF, 0x74DD_7788, 0x38DE_4D77);
    Doubled(32 * e + 2, 0x38DE_4D77, 0x0A80_0000, 0x0000_A2A8, 0xA75F_FEA3, 0xFA55_8C6C, 0x578A_D067);
    Doubled(64 * e + 4, 0x578A_D067, 0x222A_0000, 0x0000_8088, 0x38D8_C2C4, 0xF9D1_5802, 0xE323_1A4E);
    Doubled(128 * e + 8, 0xE323_1A4E, 0xA80A_0000, 0x0000_080A, 0x1D54_736F, 0xB092_770A, 0x05CC_0C6F);
    Followed(256 * e + 16, 0x05CC_0C6F, 0xEF5E_8517);
  }

  lemma SubfieldOf4Step3(e: nat)
    requires Power(e) == 0xEF5E_8517
    ensures Power(16 * e + 1) == 0x3D43_6701
  {
    hide Power, Square;
    Doubled(e, 0xEF5E_8517, 0xA8AA_0000, 0x0000_22A8, 0x4A0A_C500, 0xCC0B_9B34, 0x2EAB_7C9C);
    Doubled(2 * e, 0x2EAB_7C9C, 0x08A8_0000, 0x0000_888A, 0x75BC_753F, 0xAFDA_D6EB, 0xD2CE_2B5E);
    Doubled(4 * e, 0xD2CE_2B5E, 0xA208_0000, 0x0000_A0A8, 0xCFB7_F8F3, 0xB316_A364, 0xDEA9_FB3F);
    Doubled(8 * e, 0xDEA9_FB3F, 0xA2A8_0000, 0x0000_8882, 0xF76F_3A37, 0x2F41_7CB7, 0x7A86_CE02);
    Followed(16 * e, 0x7A86_CE02, 0x3D43_6701);
  }

  lemma SubfieldOf4(e: nat)
    requires Power(e) == 0x3D43_6701
    ensures Power(4 * e) == 0xBD43_6701
  {
    hide Power, Square;
    Doubled(e, 0x3D43_6701, 0x0AA2_0000, 0x0000_200A, 0x5ADE_64D2, 0xAA09_C88B, 0xFA75_8C53);
    Doubled(2 * e, 0xFA75_8C53, 0xAA88_0000, 0x0000_2A22, 0x43BF_3FC9, 0x5474_72EA, 0xBD43_6701);
  }

  lemma SubfieldOf2Step0(e: nat)
    requires Power(e) == 0x4000_0000
    ensures Power(256 * e + 85) == 0xE155_28E5
  {
    hide Power, Square;
    Doubled(e, 0x4000_0000, 0x2000_0000, 0x0000_0000, 0x0000_0000, 0x0000_0000, 0x2000_0000);
    Doubled(2 * e, 0x2000_0000, 0x0800_0000, 0x0000_0000, 0x0000_0000, 0x0000_0000, 0x0800_0000);
    Followed(4 * e, 0x0800_0000, 0x0400_0000);
    Doubled(4 * e + 1, 0x0400_0000, 0x0020_0000, 0x0000_0000, 0x0000_0000, 0x0000_0000, 0x0020_0000);
    Doubled(8 * e + 2, 0x0020_0000, 0x0000_0000, 0x0000_0800, 0x0000_0000, 0x0000_0000, 0x0000_0800);
    Followed(16 * e + 4, 0x0000_0800, 0x0000_0400);
    Doubled(16 * e + 5, 0x0000_0400, 0x0000_0000, 0x0000_0000, 0x9584_24A2, 0x0000_0000, 0x9584_24A2);
    Doubled(32 * e + 10, 0x9584_24A2, 0x8222_0000, 0x0000_8020, 0x9B5F_AC90, 0x2A92_62D7, 0x33EF_4E67);
    Followed(64 * e + 20, 0x33EF_4E67, 0xF44F_2413);
    Doubled(64 * e + 21, 0xF44F_2413, 0xAA20_0000, 0x0000_20AA, 0x9B5F_AC90, 0x6C39_340A, 0x5D46_B830);
    Doubled(128 * e + 42, 0x5D46_B830, 0x22A2_0000, 0x0000_2028, 0x36EE_F275, 0x0D97_85D6, 0x19DB_578B);
    Followed(256 * e + 84, 0x19DB_578B, 0xE155_28E5);
  }

  lemma SubfieldOf2Step1(e: nat)
    requires Power(e) == 0xE155_28E5
    ensures Power(256 * e + 85) == 0xABA8_5D50
  {
    hide Power, Square;
    Doubled(e, 0xE155_28E5, 0xA802_0000, 0x0000_2222, 0x3558_1079, 0xDD50_6B6D, 0x400A_5936);
    Doubled(2 * e, 0x400A_5936, 0x2000_0000, 0x0000_0088, 0xDCD5_BB2D, 0x6811_0207, 0x94C4_B9A2);
    Followed(4 * e, 0x94C4_B9A2, 0x4A62_5CD1);
    Doubled(4 * e + 1, 0x4A62_5CD1, 0x2088_0000, 0x0000_2808, 0x7B67_FD0D, 0x70F5_4185, 0x2B1A_9480);
    Doubled(8 * e + 2, 0x2B1A_9480, 0x088A_0000, 0x0000_0288, 0x9632_C6AE, 0xE135_1B80, 0x7F8D_DFA6);
    Followed(16 * e + 4, 0x7F8D_DFA6, 0x3FC6_EFD3);
    Doubled(16 * e + 5, 0x3FC6_EFD3, 0x0AAA_0000, 0x0000_A028, 0x8CE5_7FB9, 0xB541_696A, 0x330E_B6FB);
    Doubled(32 * e + 10, 0x330E_B6FB, 0x0A0A_0000, 0x0000_00A8, 0x5030_C494, 0x560B_8EE9, 0x0C31_4AD5);
    Followed(64 * e + 20, 0x0C31_4AD5, 0xEBA0_264A);
    Doubled(64 * e + 21, 0xEBA0_264A, 0xA88A_0000, 0x0000_8800, 0x5386_2698, 0x10A0_D834, 0xEBAC_76AC);
    Doubled(128 * e + 42, 0xEBAC_76AC, 0xA88A_0000, 0x0000_88A0, 0x86E6_677C, 0xA24D_533D, 0x8C21_BCE1);
    Followed(256 * e + 84, 0x8C21_BCE1, 0xABA8_5D50);
  }

  lemma SubfieldOf2Step2(e: nat)
    requires Power(e) == 0xABA8_5D50
    ensures Power(256 * e + 85) == 0xED97_96A7
  {
    hide Power, Square;
    Doubled(e, 0xABA8_5D50, 0x888A_0000, 0x0000_8880, 0x4951_9F8F, 0x3BC9_928E, 0xFA12_8581);
    Doubled(2 * e, 0xFA12_8581, 0xAA88_0000, 0x0000_0208, 0x4A0A_C500, 0x4B3C_D30B, 0xABBE_1403);
    Followed(4 * e, 0xABBE_1403, 0xB867_8921);
    Doubled(4 * e + 1, 0xB867_8921, 0x8A80_0000, 0x0000_282A, 0xE40D_79E9, 0xA41A_9933, 0xCA97_C8F0);
    Doubled(8 * e + 2, 0xCA97_C8F0, 0xA088_0000, 0x0000_822A, 0xED55_3BA3, 0xD4EF_D8B6, 0x9932_613F);
    Followed(16 * e + 4, 0x9932_613F, 0xA121_B3BF);
    Doubled(16 * e + 5, 0xA121_B3BF, 0x8802_0000, 0x0000_0802, 0xF782_82B4, 0xCE74_6737, 0xB1F4_ED81);
    Doubled(32 * e + 10, 0xB1F4_ED81, 0x8A02_0000, 0x0000_AA20, 0x443C_F5B1, 0x4B3C_D30B, 0x8502_8C9A);
    Followed(64 * e + 20, 0x8502_8C9A, 0x4281_464D);
    Doubled(64 * e + 21, 0x4281_464D, 0x2008_0000, 0x0000_8002, 0x6633_8E62, 0xDF2F_976E, 0x9914_990E);
    Doubled(128 * e + 42, 0x9914_990E, 0x8282_0000, 0x0000_0220, 0x0A03_18C5, 0x88DF_31EA, 0x005E_2B0F);
    Followed(256 * e + 84, 0x005E_2B0F, 0xED97_96A7);
  }

  lemma SubfieldOf2Step3(e: nat)
    requires Power(e) == 0xED97_96A7
    ensures Power(64 * e + 21) == 0xC736_EB52
  {
    hide Power, Square;
    Doubled(e, 0xED97_96A7, 0xA8A2_0000, 0x0000_822A, 0x5EEB_4CA6, 0x20A9_0562, 0xD6E0_CBEE);
    Doubled(2 * e, 0xD6E0_CBEE, 0xA228_0000, 0x0000_A800, 0x17BA_D329, 0x5FB4_3D32, 0xEA26_461B);
    Followed(4 * e, 0xEA26_461B, 0x98AB_A02D);
    Doubled(4 * e + 1, 0x98AB_A02D, 0x8280_0000, 0x0000_888A, 0xE363_0B12, 0xE971_8036, 0x8892_03AE);
    Doubled(8 * e + 2, 0x8892_03AE, 0x8080_0000, 0x0000_8208, 0xFAEF_E88A, 0x67F9_7BD2, 0x1D96_1150);
    Followed(16 * e + 4, 0x1D96_1150, 0x0ECB_08A8);
    Doubled(16 * e + 5, 0x0ECB_08A8, 0x00A8_0000, 0x0000_A08A, 0x3B83_984B, 0x027F_FC03, 0x3954_C4C2);
    Doubled(32 * e + 10, 0x3954_C4C2, 0x0A82_0000, 0x0000_2220, 0x4352_874A, 0x1CCC_758F, 0x551C_D0E5);
    Followed(64 * e + 20, 0x551C_D0E5, 0xC736_EB52);
  }

  lemma SubfieldOf2(e: nat)
    requires Power(e) == 0xC736_EB52
    ensures Power(2 * e) == 0x4736_EB52
  {
    hide Power, Square;
    Doubled(e, 0xC736_EB52, 0xA02A_0000, 0x0000_0A28, 0x1961_5B1B, 0xFE7D_BA61, 0x4736_EB52);
  }

  lemma OnesStep0(e: nat)
    requires Power(e) == 0x4000_0000
    ensures Power(128 * e + 56) == 0x6BF1_402C
  {
    hide Power, Square;
    Doubled(e, 0x4000_0000, 0x2000_0000, 0x0000_0000, 0x0000_0000, 0x0000_0000, 0x2000_0000);
    Doubled(2 * e, 0x2000_0000, 0x0800_0000, 0x0000_0000, 0x0000_0000, 0x0000_0000, 0x0800_0000);
    Followed(4 * e, 0x0800_0000, 0x0400_0000);
    Doubled(4 * e + 1, 0x0400_0000, 0x0020_0000, 0x0000_0000, 0x0000_0000, 0x0000_0000, 0x0020_0000);
    Followed(8 * e + 2, 0x0020_0000, 0x0010_0000);
    Doubled(8 * e + 3, 0x0010_0000, 0x0000_0000, 0x0000_0200, 0x0000_0000, 0x0000_0000, 0x0000_0200);
    Followed(16 * e + 6, 0x0000_0200, 0x0000_0100);
    Doubled(16 * e + 7, 0x0000_0100, 0x0000_0000, 0x0000_0000, 0x3236_6282, 0x0000_0000, 0x3236_6282);
    Doubled(32 * e + 14, 0x3236_6282, 0x0A08_0000, 0x0000_0A28, 0xFD6C_22F2, 0x2481_336F, 0xD3E5_1BB5);
    Doubled(64 * e + 28, 0xD3E5_1BB5, 0xA20A_0000, 0x0000_A822, 0x2F62_11ED, 0xE699_F9E3, 0x6BF1_402C);
  }

  lemma OnesStep1(e: nat)
    requires Power(e) == 0x6BF1_402C
    ensures Power(256 * e + 68) == 0x2784_4665
  {
    hide Power, Square;
    Doubled(e, 0x6BF1_402C, 0x288A_0000, 0x0000_AA02, 0x3B6E_20C8, 0x4378_48BD, 0x509C_C277);
    Doubled(2 * e, 0x509C_C277, 0x2200_0000, 0x0000_82A0, 0x1E0F_29E0, 0xFA55_8C6C, 0xC65A_272C);
    Followed(4 * e, 0xC65A_272C, 0x632D_1396);
    Doubled(4 * e + 1, 0x632D_1396, 0x280A_0000, 0x0000_08A2, 0x14E1_89A6, 0x8737_483F, 0xBBDC_C93B);
    Doubled(8 * e + 2, 0xBBDC_C93B, 0x8A8A_0000, 0x0000_A2A0, 0xDF63_5921, 0x8F73_D389, 0xDA9A_2808);
    Doubled(16 * e + 4, 0xDA9A_2808, 0xA288_0000, 0x0000_8288, 0x3558_1079, 0xED59_B63B, 0x7A89_24CA);
    Doubled(32 * e + 8, 0x7A89_24CA, 0x2A88_0000, 0x0000_8082, 0x9B5F_AC90, 0xF195_C3B4, 0x4042_EFA6);
    Followed(64 * e + 16, 0x4042_EFA6, 0x2021_77D3);
    Doubled(64 * e + 17, 0x2021_77D3, 0x0800_0000, 0x0000_0802, 0xB4D0_05FE, 0xB541_696A, 0x0991_6496);
    Doubled(128 * e + 34, 0x0991_6496, 0x0082_0000, 0x0000_8202, 0xA031_8C58, 0x8737_483F, 0x2784_4665);
  }

  lemma OnesStep2(e: nat)
    requires Power(e) == 0x2784_4665
    ensures Power(256 * e + 144) == 0x8EBE_6540
  {
    hide Power, Square;
    Doubled(e, 0x2784_4665, 0x082A_0000, 0x0000_8020, 0x6633_8E62, 0x3C65_70ED, 0x527C_7EAF);
    Followed(2 * e, 0x527C_7EAF, 0xC486_BC77);
    Doubled(2 * e + 1, 0xC486_BC77, 0xA020_0000, 0x0000_8028, 0xA36A_D6D7, 0xFA55_8C6C, 0xF91F_DA93);
    Doubled(4 * e + 2, 0xF91F_DA93, 0xAA82_0000, 0x0000_02AA, 0xCB82_D087, 0x8D0C_2F8A, 0xEC0C_FDA7);
    Doubled(8 * e + 4, 0xEC0C_FDA7, 0xA8A0_0000, 0x0000_00A0, 0xAA32_949D, 0x20A9_0562, 0x223B_915F);
    Followed(16 * e + 8, 0x223B_915F, 0xFCA5_4B8F);
    Doubled(16 * e + 9, 0xFCA5_4B8F, 0xAAA0_0000, 0x0000_8822, 0xFA02_5009, 0xC3E3_E2E1, 0x9341_3ACA);
    Doubled(32 * e + 18, 0x9341_3ACA, 0x820A_0000, 0x0000_2002, 0x138F_FB5D, 0xF195_C3B4, 0x6010_18EB);
    Doubled(64 * e + 36, 0x6010_18EB, 0x2800_0000, 0x0000_0200, 0xD58D_F967, 0x558F_5A87, 0xA802_A1E0);
    Doubled(128 * e + 72, 0xA802_A1E0, 0x8880_0000, 0x0000_0008, 0xD155_6990, 0xD76B_0CD8, 0x8EBE_6540);
  }

  lemma OnesStep3(e: nat)
    requires Power(e) == 0x8EBE_6540
    ensures Power(256 * e + 102) == 0xFFFF_FFFF
  {
    hide Power, Square;
    Doubled(e, 0x8EBE_6540, 0x80A8_0000, 0x0000_8AA8, 0x9207_EEDA, 0x384D_46E0, 0x2AE2_2292);
    Doubled(2 * e, 0x2AE2_2292, 0x0888_0000, 0x0000_A808, 0xC602_023A, 0x2705_E701, 0xE98F_4D33);
    Followed(4 * e, 0xE98F_4D33, 0x997F_25B9);
    Doubled(4 * e + 1, 0x997F_25B9, 0x8282_0000, 0x0000_2AAA, 0xA969_CE12, 0xABF2_E0E6, 0x8019_045E);
    Followed(8 * e + 2, 0x8019_045E, 0x400C_822F);
    Doubled(8 * e + 3, 0x400C_822F, 0x2000_0000, 0x0000_00A0, 0x2561_0928, 0x2CC5_A8D9, 0x29A4_A151);
    Doubled(16 * e + 6, 0x29A4_A151, 0x0882_0000, 0x0000_8820, 0xD155_6990, 0x91C0_5A05, 0x4817_BBB5);
    Doubled(32 * e + 12, 0x4817_BBB5, 0x2080_0000, 0x0000_022A, 0xCC01_1AFF, 0xE699_F9E3, 0x0A18_E136);
    Followed(64 * e + 24, 0x0A18_E136, 0x050C_709B);
    Doubled(64 * e + 25, 0x050C_709B, 0x0022_0000, 0x0000_00A0, 0xDBBB_C9D6, 0x6055_99B1, 0xBBCC_50C7);
    Followed(128 * e + 50, 0xBBCC_50C7, 0xB05E_AB43);
    Doubled(128 * e + 51, 0xB05E_AB43, 0x8A00_0000, 0x0000_22A8, 0x220F_7BD3, 0x57F0_A684, 0xFFFF_FFFF);
  }
}
