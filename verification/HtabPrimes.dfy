/** The sizes in the table of hashtab.h:109-141 are prime: the small ones by trial division, the
    others by a witness, whose large powers are given hop by hop.
 */
module HtabPrimes {
  import opened Primes
  import opened HtabMod

  lemma PrimesBelow60()
    ensures IsPrime(3) && IsPrime(5) && IsPrime(7) && IsPrime(11) && IsPrime(13) && IsPrime(17) && IsPrime(19) && IsPrime(31)
    ensures IsPrime(41) && IsPrime(47)
  {
    assert NoneDivides(3, 3, 0);
    assert NoneDivides(5, 3, 0);
    assert NoneDivides(7, 3, 0);
    assert NoneDivides(11, 3, 1);
    assert NoneDivides(13, 3, 1);
    assert NoneDivides(17, 3, 1);
    assert NoneDivides(19, 3, 1);
    assert NoneDivides(31, 3, 1);
    assert NoneDivides(41, 3, 1);
    assert NoneDivides(47, 3, 1);
    hide NoneDivides, IsPrime;
    TrialDivision(3, 0);
    TrialDivision(5, 0);
    TrialDivision(7, 0);
    TrialDivision(11, 1);
    TrialDivision(13, 1);
    TrialDivision(17, 1);
    TrialDivision(19, 1);
    TrialDivision(31, 1);
    TrialDivision(41, 1);
    TrialDivision(47, 1);
  }

  lemma PrimesBelow300()
    ensures IsPrime(61) && IsPrime(73) && IsPrime(89) && IsPrime(97) && IsPrime(127) && IsPrime(151) && IsPrime(251) && IsPrime(257)
  {
    assert NoneDivides(61, 3, 1);
    assert NoneDivides(73, 3, 1);
    assert NoneDivides(89, 3, 1);
    assert NoneDivides(97, 3, 1);
    assert NoneDivides(127, 3, 1);
    assert NoneDivides(151, 3, 1);
    assert NoneDivides(251, 3, 1);
    assert NoneDivides(257, 3, 1);
    hide NoneDivides, IsPrime;
    TrialDivision(61, 1);
    TrialDivision(73, 1);
    TrialDivision(89, 1);
    TrialDivision(97, 1);
    TrialDivision(127, 1);
    TrialDivision(151, 1);
    TrialDivision(251, 1);
    TrialDivision(257, 1);
  }

  lemma PrimesBelow2000()
    ensures IsPrime(331) && IsPrime(467) && IsPrime(509) && IsPrime(683) && IsPrime(1021)
  {
    assert NoneDivides(331, 3, 1);
    assert NoneDivides(467, 3, 2);
    assert NoneDivides(509, 3, 2);
    assert NoneDivides(683, 3, 2);
    assert NoneDivides(1021, 3, 2);
    hide NoneDivides, IsPrime;
    TrialDivision(331, 1);
    TrialDivision(467, 2);
    TrialDivision(509, 2);
    TrialDivision(683, 2);
    TrialDivision(1021, 2);
  }

  lemma PrimesBelow4000()
    ensures IsPrime(2039) && IsPrime(2341) && IsPrime(2371) && IsPrime(2473)
  {
    assert NoneDivides(2039, 3, 3);
    assert NoneDivides(2341, 3, 3);
    assert NoneDivides(2371, 3, 3);
    assert NoneDivides(2473, 3, 3);
    hide NoneDivides, IsPrime;
    TrialDivision(2039, 3);
    TrialDivision(2341, 3);
    TrialDivision(2371, 3);
    TrialDivision(2473, 3);
  }

  lemma PrimesBelow8000()
    ensures IsPrime(4093) && IsPrime(6917)
  {
    assert NoneDivides(4093, 3, 4);
    assert NoneDivides(6917, 3, 6);
    hide NoneDivides, IsPrime;
    TrialDivision(4093, 4);
    TrialDivision(6917, 6);
  }

  lemma PrimesBelow16000()
    ensures IsPrime(8191) && IsPrime(15101)
  {
    assert NoneDivides(8191, 3, 6);
    assert NoneDivides(15101, 3, 8);
    hide NoneDivides, IsPrime;
    TrialDivision(8191, 6);
    TrialDivision(15101, 8);
  }

  lemma PrimesBelow33000()
    ensures IsPrime(16381) && IsPrime(32749)
  {
    assert NoneDivides(16381, 3, 8);
    assert NoneDivides(32749, 3, 12);
    hide NoneDivides, IsPrime;
    TrialDivision(16381, 8);
    TrialDivision(32749, 12);
  }

  lemma Enough65521()
    ensures Enough(65521, [13, 7, 5], 144)
  {
  }

  lemma Prime65521()
    ensures IsPrime(65521)
  {
    hide IsPrime, At, Power;
    assert At(65521, 3, 5040, 59534) by {
      assert Hop(65521, 3, 0, 1, 1, 1, 3);
      assert Hop(65521, 3, 1, 3, 9, 0, 81);
      assert Hop(65521, 3, 4, 81, 6561, 3, 49969);
      assert Hop(65521, 3, 19, 49969, 26693, 2, 40450);
      assert Hop(65521, 3, 78, 40450, 12088, 3, 17115);
      assert Hop(65521, 3, 315, 17115, 44355, 0, 32479);
      assert Hop(65521, 3, 1260, 32479, 62862, 0, 59534);
      ZerothPower(65521, 3);
      hide *;
      Hops(65521, 3);
    }
    assert At(65521, 3, 9360, 5862) by {
      assert Hop(65521, 3, 0, 1, 1, 2, 9);
      assert Hop(65521, 3, 2, 9, 81, 1, 19683);
      assert Hop(65521, 3, 9, 19683, 60337, 0, 10246);
      assert Hop(65521, 3, 36, 10246, 15874, 2, 42032);
      assert Hop(65521, 3, 146, 42032, 46301, 1, 3006);
      assert Hop(65521, 3, 585, 3006, 59659, 0, 30040);
      assert Hop(65521, 3, 2340, 30040, 46388, 0, 5862);
      ZerothPower(65521, 3);
      hide *;
      Hops(65521, 3);
    }
    assert At(65521, 3, 13104, 50520) by {
      assert Hop(65521, 3, 0, 1, 1, 3, 27);
      assert Hop(65521, 3, 3, 27, 729, 0, 7273);
      assert Hop(65521, 3, 12, 7273, 21082, 3, 63919);
      assert Hop(65521, 3, 51, 63919, 11085, 0, 25350);
      assert Hop(65521, 3, 204, 25350, 58053, 3, 14026);
      assert Hop(65521, 3, 819, 14026, 34634, 0, 21009);
      assert Hop(65521, 3, 3276, 21009, 28625, 0, 50520);
      ZerothPower(65521, 3);
      hide *;
      Hops(65521, 3);
    }
    assert At(65521, 50520, 5, 1) by {
      assert Hop(65521, 50520, 0, 1, 1, 1, 50520);
      assert Hop(65521, 50520, 1, 50520, 30887, 1, 1);
      ZerothPower(65521, 50520);
      hide *;
      Hops(65521, 50520);
    }
    assert Splits(65521, 13, 5040, 59534, 7364);
    assert Splits(65521, 7, 9360, 5862, 39999);
    assert Splits(65521, 5, 13104, 50520, 56441);
    hide *;
    Enough65521();
    PrimesBelow60();
    FactorChecked(65521, 3, 13, 5040, 59534, 7364);
    FactorChecked(65521, 3, 7, 9360, 5862, 39999);
    FactorChecked(65521, 3, 5, 13104, 50520, 56441);
    PowerChecked(65521, 3, 5, 13104, 50520, 56441);
    CheckedPrime(65521, 3, [13, 7, 5], 144);
  }

  lemma Prime70051()
    ensures IsPrime(70051)
  {
    hide IsPrime, At, Power;
    assert At(70051, 3, 150, 33647) by {
      assert Hop(70051, 3, 0, 1, 1, 2, 9);
      assert Hop(70051, 3, 2, 9, 81, 1, 19683);
      assert Hop(70051, 3, 9, 19683, 38459, 1, 43550);
      assert Hop(70051, 3, 37, 43550, 41726, 2, 33647);
      ZerothPower(70051, 3);
      hide *;
      Hops(70051, 3);
    }
    assert At(70051, 33647, 467, 1) by {
      assert Hop(70051, 33647, 0, 1, 1, 1, 33647);
      assert Hop(70051, 33647, 1, 33647, 26398, 3, 61677);
      assert Hop(70051, 33647, 7, 61677, 2825, 1, 42860);
      assert Hop(70051, 33647, 29, 42860, 32227, 0, 3403);
      assert Hop(70051, 33647, 116, 3403, 21994, 3, 1);
      ZerothPower(70051, 33647);
      hide *;
      Hops(70051, 33647);
    }
    assert Splits(70051, 467, 150, 33647, 64973);
    assert Enough(70051, [467], 150);
    hide *;
    PrimesBelow2000();
    FactorChecked(70051, 3, 467, 150, 33647, 64973);
    PowerChecked(70051, 3, 467, 150, 33647, 64973);
    CheckedPrime(70051, 3, [467], 150);
  }

  lemma Prime131071()
    ensures IsPrime(131071)
  {
    hide IsPrime, At, Power;
    assert At(131071, 3, 510, 120519) by {
      assert Hop(131071, 3, 0, 1, 1, 1, 3);
      assert Hop(131071, 3, 1, 3, 9, 3, 2187);
      assert Hop(131071, 3, 7, 2187, 64413, 3, 40012);
      assert Hop(131071, 3, 31, 40012, 58950, 3, 67866);
      assert Hop(131071, 3, 127, 67866, 90087, 2, 120519);
      ZerothPower(131071, 3);
      hide *;
      Hops(131071, 3);
    }
    assert At(131071, 3, 7710, 32768) by {
      assert Hop(131071, 3, 0, 1, 1, 1, 3);
      assert Hop(131071, 3, 1, 3, 9, 3, 2187);
      assert Hop(131071, 3, 7, 2187, 64413, 2, 100718);
      assert Hop(131071, 3, 30, 100718, 6550, 0, 42283);
      assert Hop(131071, 3, 120, 42283, 43649, 1, 92506);
      assert Hop(131071, 3, 481, 92506, 127659, 3, 18830);
      assert Hop(131071, 3, 1927, 18830, 21845, 2, 32768);
      ZerothPower(131071, 3);
      hide *;
      Hops(131071, 3);
    }
    assert At(131071, 32768, 17, 1) by {
      assert Hop(131071, 32768, 0, 1, 1, 1, 32768);
      assert Hop(131071, 32768, 1, 32768, 8192, 0, 512);
      assert Hop(131071, 32768, 4, 512, 2, 1, 1);
      ZerothPower(131071, 32768);
      hide *;
      Hops(131071, 32768);
    }
    assert Splits(131071, 257, 510, 120519, 53581);
    assert Splits(131071, 17, 7710, 32768, 43689);
    assert Enough(131071, [257, 17], 30);
    hide *;
    PrimesBelow300();
    PrimesBelow60();
    FactorChecked(131071, 3, 257, 510, 120519, 53581);
    FactorChecked(131071, 3, 17, 7710, 32768, 43689);
    PowerChecked(131071, 3, 17, 7710, 32768, 43689);
    CheckedPrime(131071, 3, [257, 17], 30);
  }

  lemma Prime262139()
    ensures IsPrime(262139)
  {
    hide IsPrime, At, Power;
    assert At(262139, 3, 106, 237345) by {
      assert Hop(262139, 3, 0, 1, 1, 1, 3);
      assert Hop(262139, 3, 1, 3, 9, 2, 729);
      assert Hop(262139, 3, 6, 729, 7163, 2, 150342);
      assert Hop(262139, 3, 26, 150342, 43828, 2, 237345);
      ZerothPower(262139, 3);
      hide *;
      Hops(262139, 3);
    }
    assert At(262139, 237345, 2473, 1) by {
      assert Hop(262139, 237345, 0, 1, 1, 2, 26481);
      assert Hop(262139, 237345, 2, 26481, 21536, 1, 245917);
      assert Hop(262139, 237345, 9, 245917, 227867, 2, 54521);
      assert Hop(262139, 237345, 38, 54521, 145320, 2, 70200);
      assert Hop(262139, 237345, 154, 70200, 88939, 2, 239838);
      assert Hop(262139, 237345, 618, 239838, 56918, 1, 1);
      ZerothPower(262139, 237345);
      hide *;
      Hops(262139, 237345);
    }
    assert Splits(262139, 2473, 106, 237345, 229143);
    assert Enough(262139, [2473], 106);
    hide *;
    PrimesBelow4000();
    FactorChecked(262139, 3, 2473, 106, 237345, 229143);
    PowerChecked(262139, 3, 2473, 106, 237345, 229143);
    CheckedPrime(262139, 3, [2473], 106);
  }

  lemma Enough262657()
    ensures Enough(262657, [19, 3, 3, 3], 512)
  {
  }

  lemma Prime262657()
    ensures IsPrime(262657)
  {
    hide IsPrime, At, Power;
    assert At(262657, 5, 13824, 241048) by {
      assert Hop(262657, 5, 0, 1, 1, 3, 125);
      assert Hop(262657, 5, 3, 125, 15625, 1, 136046);
      assert Hop(262657, 5, 13, 136046, 125954, 2, 21499);
      assert Hop(262657, 5, 54, 21499, 193338, 0, 76603);
      assert Hop(262657, 5, 216, 76603, 262229, 0, 183184);
      assert Hop(262657, 5, 864, 183184, 107507, 0, 59078);
      assert Hop(262657, 5, 3456, 59078, 23868, 0, 241048);
      ZerothPower(262657, 5);
      hide *;
      Hops(262657, 5);
    }
    assert At(262657, 5, 87552, 262144) by {
      assert Hop(262657, 5, 0, 1, 1, 1, 5);
      assert Hop(262657, 5, 1, 5, 25, 1, 3125);
      assert Hop(262657, 5, 5, 3125, 47316, 1, 103254);
      assert Hop(262657, 5, 21, 103254, 140886, 1, 165501);
      assert Hop(262657, 5, 85, 165501, 183727, 2, 113239);
      assert Hop(262657, 5, 342, 113239, 156381, 0, 74519);
      assert Hop(262657, 5, 1368, 74519, 249724, 0, 212637);
      assert Hop(262657, 5, 5472, 212637, 192475, 0, 169060);
      assert Hop(262657, 5, 21888, 169060, 262145, 0, 262144);
      ZerothPower(262657, 5);
      hide *;
      Hops(262657, 5);
    }
    assert At(262657, 262144, 3, 1) by {
      assert Hop(262657, 262144, 0, 1, 1, 3, 1);
      ZerothPower(262657, 262144);
      hide *;
      Hops(262657, 262144);
    }
    assert Splits(262657, 19, 13824, 241048, 35892);
    assert Splits(262657, 3, 87552, 262144, 175275);
    hide *;
    Enough262657();
    PrimesBelow60();
    FactorChecked(262657, 5, 19, 13824, 241048, 35892);
    FactorChecked(262657, 5, 3, 87552, 262144, 175275);
    PowerChecked(262657, 5, 3, 87552, 262144, 175275);
    CheckedPrime(262657, 5, [19, 3, 3, 3], 512);
  }

  lemma Prime524287()
    ensures IsPrime(524287)
  {
    hide IsPrime, At, Power;
    assert At(524287, 3, 7182, 117005) by {
      assert Hop(524287, 3, 0, 1, 1, 1, 3);
      assert Hop(524287, 3, 1, 3, 9, 3, 2187);
      assert Hop(524287, 3, 7, 2187, 64386, 0, 19687);
      assert Hop(524287, 3, 28, 19687, 129876, 0, 414012);
      assert Hop(524287, 3, 112, 414012, 262947, 0, 252397);
      assert Hop(524287, 3, 448, 252397, 229387, 3, 26060);
      assert Hop(524287, 3, 1795, 26060, 171935, 2, 117005);
      ZerothPower(524287, 3);
      hide *;
      Hops(524287, 3);
    }
    assert At(524287, 3, 27594, 256) by {
      assert Hop(524287, 3, 0, 1, 1, 1, 3);
      assert Hop(524287, 3, 1, 3, 9, 2, 729);
      assert Hop(524287, 3, 6, 729, 7154, 2, 293458);
      assert Hop(524287, 3, 26, 293458, 312292, 3, 480682);
      assert Hop(524287, 3, 107, 480682, 331363, 3, 306693);
      assert Hop(524287, 3, 431, 306693, 362727, 0, 5305);
      assert Hop(524287, 3, 1724, 5305, 355814, 2, 10551);
      assert Hop(524287, 3, 6898, 10551, 174757, 2, 256);
      ZerothPower(524287, 3);
      hide *;
      Hops(524287, 3);
    }
    assert At(524287, 256, 19, 1) by {
      assert Hop(524287, 256, 0, 1, 1, 1, 256);
      assert Hop(524287, 256, 1, 256, 65536, 0, 8192);
      assert Hop(524287, 256, 4, 8192, 128, 3, 1);
      ZerothPower(524287, 256);
      hide *;
      Hops(524287, 256);
    }
    assert Splits(524287, 73, 7182, 117005, 130543);
    assert Splits(524287, 19, 27594, 256, 374197);
    assert Enough(524287, [73, 19], 378);
    hide *;
    PrimesBelow300();
    PrimesBelow60();
    FactorChecked(524287, 3, 73, 7182, 117005, 130543);
    FactorChecked(524287, 3, 19, 27594, 256, 374197);
    PowerChecked(524287, 3, 19, 27594, 256, 374197);
    CheckedPrime(524287, 3, [73, 19], 378);
  }

  lemma Prime581029()
    ensures IsPrime(581029)
  {
    hide IsPrime, At, Power;
    assert At(581029, 3, 84, 64690) by {
      assert Hop(581029, 3, 0, 1, 1, 1, 3);
      assert Hop(581029, 3, 1, 3, 9, 1, 243);
      assert Hop(581029, 3, 5, 243, 59049, 1, 88116);
      assert Hop(581029, 3, 21, 88116, 138929, 0, 64690);
      ZerothPower(581029, 3);
      hide *;
      Hops(581029, 3);
    }
    assert At(581029, 64690, 6917, 1) by {
      assert Hop(581029, 64690, 0, 1, 1, 1, 64690);
      assert Hop(581029, 64690, 1, 64690, 225242, 2, 168323);
      assert Hop(581029, 64690, 6, 168323, 496231, 3, 570337);
      assert Hop(581029, 64690, 27, 570337, 437180, 0, 349024);
      assert Hop(581029, 64690, 108, 349024, 374494, 0, 462190);
      assert Hop(581029, 64690, 432, 462190, 217047, 1, 240381);
      assert Hop(581029, 64690, 1729, 240381, 272140, 1, 1);
      ZerothPower(581029, 64690);
      hide *;
      Hops(581029, 64690);
    }
    assert Splits(581029, 6917, 84, 64690, 43131);
    assert Enough(581029, [6917], 84);
    hide *;
    PrimesBelow8000();
    FactorChecked(581029, 3, 6917, 84, 64690, 43131);
    PowerChecked(581029, 3, 6917, 84, 64690, 43131);
    CheckedPrime(581029, 3, [6917], 84);
  }

  lemma Prime1048571()
    ensures IsPrime(1048571)
  {
    hide IsPrime, At, Power;
    assert At(1048571, 3, 10810, 528731) by {
      assert Hop(1048571, 3, 0, 1, 1, 2, 9);
      assert Hop(1048571, 3, 2, 9, 81, 2, 59049);
      assert Hop(1048571, 3, 10, 59049, 285826, 2, 49574);
      assert Hop(1048571, 3, 42, 49574, 779623, 0, 501982);
      assert Hop(1048571, 3, 168, 501982, 685601, 3, 606758);
      assert Hop(1048571, 3, 675, 606758, 943893, 2, 299177);
      assert Hop(1048571, 3, 2702, 299177, 856769, 2, 528731);
      ZerothPower(1048571, 3);
      hide *;
      Hops(1048571, 3);
    }
    assert At(1048571, 3, 22310, 237245) by {
      assert Hop(1048571, 3, 0, 1, 1, 1, 3);
      assert Hop(1048571, 3, 1, 3, 9, 1, 243);
      assert Hop(1048571, 3, 5, 243, 59049, 1, 857478);
      assert Hop(1048571, 3, 21, 857478, 49574, 3, 78401);
      assert Hop(1048571, 3, 87, 78401, 1042170, 0, 78532);
      assert Hop(1048571, 3, 348, 78532, 628973, 2, 636363);
      assert Hop(1048571, 3, 1394, 636363, 796140, 1, 298844);
      assert Hop(1048571, 3, 5577, 298844, 944266, 2, 237245);
      ZerothPower(1048571, 3);
      hide *;
      Hops(1048571, 3);
    }
    assert At(1048571, 237245, 47, 1) by {
      assert Hop(1048571, 237245, 0, 1, 1, 2, 1044458);
      assert Hop(1048571, 237245, 2, 1044458, 139633, 3, 770695);
      assert Hop(1048571, 237245, 11, 770695, 400078, 3, 1);
      ZerothPower(1048571, 237245);
      hide *;
      Hops(1048571, 237245);
    }
    assert Splits(1048571, 97, 10810, 528731, 218585);
    assert Splits(1048571, 47, 22310, 237245, 853786);
    assert Enough(1048571, [97, 47], 230);
    hide *;
    PrimesBelow300();
    PrimesBelow60();
    FactorChecked(1048571, 3, 97, 10810, 528731, 218585);
    FactorChecked(1048571, 3, 47, 22310, 237245, 853786);
    PowerChecked(1048571, 3, 47, 22310, 237245, 853786);
    CheckedPrime(1048571, 3, [97, 47], 230);
  }

  lemma Prime1048573()
    ensures IsPrime(1048573)
  {
    hide IsPrime, At, Power;
    assert At(1048573, 3, 14364, 269986) by {
      assert Hop(1048573, 3, 0, 1, 1, 3, 27);
      assert Hop(1048573, 3, 3, 27, 729, 2, 588677);
      assert Hop(1048573, 3, 14, 588677, 865278, 0, 778105);
      assert Hop(1048573, 3, 56, 778105, 292252, 0, 766362);
      assert Hop(1048573, 3, 224, 766362, 783452, 1, 452196);
      assert Hop(1048573, 3, 897, 452196, 50259, 3, 874694);
      assert Hop(1048573, 3, 3591, 874694, 401332, 0, 269986);
      ZerothPower(1048573, 3);
      hide *;
      Hops(1048573, 3);
    }
    assert At(1048573, 3, 55188, 937692) by {
      assert Hop(1048573, 3, 0, 1, 1, 3, 27);
      assert Hop(1048573, 3, 3, 27, 729, 1, 545750);
      assert Hop(1048573, 3, 13, 545750, 96142, 1, 339507);
      assert Hop(1048573, 3, 53, 339507, 616024, 3, 253512);
      assert Hop(1048573, 3, 215, 253512, 246401, 2, 247752);
      assert Hop(1048573, 3, 862, 247752, 735803, 1, 607460);
      assert Hop(1048573, 3, 3449, 607460, 132878, 1, 1023557);
      assert Hop(1048573, 3, 13797, 1023557, 850748, 0, 937692);
      ZerothPower(1048573, 3);
      hide *;
      Hops(1048573, 3);
    }
    assert At(1048573, 937692, 19, 1) by {
      assert Hop(1048573, 937692, 0, 1, 1, 1, 937692);
      assert Hop(1048573, 937692, 1, 937692, 77736, 0, 1008070);
      assert Hop(1048573, 937692, 4, 1008070, 524837, 3, 1);
      ZerothPower(1048573, 937692);
      hide *;
      Hops(1048573, 937692);
    }
    assert Splits(1048573, 73, 14364, 269986, 39413);
    assert Splits(1048573, 19, 55188, 937692, 367306);
    assert Enough(1048573, [73, 19], 756);
    hide *;
    PrimesBelow300();
    PrimesBelow60();
    FactorChecked(1048573, 3, 73, 14364, 269986, 39413);
    FactorChecked(1048573, 3, 19, 55188, 937692, 367306);
    PowerChecked(1048573, 3, 19, 55188, 937692, 367306);
    CheckedPrime(1048573, 3, [73, 19], 756);
  }

  lemma Prime2097143()
    ensures IsPrime(2097143)
  {
    hide IsPrime, At, Power;
    assert At(2097143, 3, 2, 9) by {
      assert Hop(2097143, 3, 0, 1, 1, 2, 9);
      ZerothPower(2097143, 3);
      hide *;
      Hops(2097143, 3);
    }
    assert At(2097143, 9, 1048571, 1) by {
      assert Hop(2097143, 9, 0, 1, 1, 3, 729);
      assert Hop(2097143, 9, 3, 729, 531441, 3, 1377940);
      assert Hop(2097143, 9, 15, 1377940, 1022831, 3, 416425);
      assert Hop(2097143, 9, 63, 416425, 1220241, 3, 684512);
      assert Hop(2097143, 9, 255, 684512, 406226, 3, 327632);
      assert Hop(2097143, 9, 1023, 327632, 462969, 3, 1776845);
      assert Hop(2097143, 9, 4095, 1776845, 670387, 3, 746595);
      assert Hop(2097143, 9, 16383, 746595, 261769, 3, 747072);
      assert Hop(2097143, 9, 65535, 747072, 1809451, 2, 1030730);
      assert Hop(2097143, 9, 262142, 1030730, 77672, 3, 1);
      ZerothPower(2097143, 9);
      hide *;
      Hops(2097143, 9);
    }
    assert Splits(2097143, 1048571, 2, 9, 262143);
    assert Enough(2097143, [1048571], 2);
    hide *;
    Prime1048571();
    FactorChecked(2097143, 3, 1048571, 2, 9, 262143);
    PowerChecked(2097143, 3, 1048571, 2, 9, 262143);
    CheckedPrime(2097143, 3, [1048571], 2);
  }

  lemma Enough4194301()
    ensures Enough(4194301, [41, 31, 11], 300)
  {
  }

  lemma Prime4194301()
    ensures IsPrime(4194301)
  {
    hide IsPrime, At, Power;
    assert At(4194301, 5, 102300, 522899) by {
      assert Hop(4194301, 5, 0, 1, 1, 1, 5);
      assert Hop(4194301, 5, 1, 5, 25, 2, 15625);
      assert Hop(4194301, 5, 6, 15625, 871167, 0, 2536046);
      assert Hop(4194301, 5, 24, 2536046, 743619, 3, 2799947);
      assert Hop(4194301, 5, 99, 2799947, 986077, 3, 3453681);
      assert Hop(4194301, 5, 399, 3453681, 4076824, 2, 2132266);
      assert Hop(4194301, 5, 1598, 2132266, 3119572, 1, 3572887);
      assert Hop(4194301, 5, 6393, 3572887, 2843530, 3, 2747897);
      assert Hop(4194301, 5, 25575, 2747897, 746824, 0, 522899);
      ZerothPower(4194301, 5);
      hide *;
      Hops(4194301, 5);
    }
    assert At(4194301, 5, 135300, 541779) by {
      assert Hop(4194301, 5, 0, 1, 1, 2, 25);
      assert Hop(4194301, 5, 2, 25, 625, 0, 390625);
      assert Hop(4194301, 5, 8, 390625, 3414546, 1, 1215111);
      assert Hop(4194301, 5, 33, 1215111, 127097, 0, 1394258);
      assert Hop(4194301, 5, 132, 1394258, 1714589, 0, 507914);
      assert Hop(4194301, 5, 528, 507914, 1954090, 2, 2227543);
      assert Hop(4194301, 5, 2114, 2227543, 1653528, 0, 3271011);
      assert Hop(4194301, 5, 8456, 3271011, 2105957, 1, 847944);
      assert Hop(4194301, 5, 33825, 847944, 978211, 0, 541779);
      ZerothPower(4194301, 5);
      hide *;
      Hops(4194301, 5);
    }
    assert At(4194301, 5, 381300, 2690311) by {
      assert Hop(4194301, 5, 0, 1, 1, 1, 5);
      assert Hop(4194301, 5, 1, 5, 25, 1, 3125);
      assert Hop(4194301, 5, 5, 3125, 1377023, 3, 3862650);
      assert Hop(4194301, 5, 23, 3862650, 1036377, 1, 3430245);
      assert Hop(4194301, 5, 93, 3430245, 1980752, 0, 4164298);
      assert Hop(4194301, 5, 372, 4164298, 2599595, 1, 1609182);
      assert Hop(4194301, 5, 1489, 1609182, 1740647, 1, 2523078);
      assert Hop(4194301, 5, 5957, 2523078, 1279829, 3, 2189811);
      assert Hop(4194301, 5, 23831, 2189811, 3379839, 1, 1762547);
      assert Hop(4194301, 5, 95325, 1762547, 4171345, 0, 2690311);
      ZerothPower(4194301, 5);
      hide *;
      Hops(4194301, 5);
    }
    assert At(4194301, 2690311, 11, 1) by {
      assert Hop(4194301, 2690311, 0, 1, 1, 2, 3585101);
      assert Hop(4194301, 2690311, 2, 3585101, 304617, 3, 1);
      ZerothPower(4194301, 2690311);
      hide *;
      Hops(4194301, 2690311);
    }
    assert Splits(4194301, 41, 102300, 522899, 3889453);
    assert Splits(4194301, 31, 135300, 541779, 2514848);
    assert Splits(4194301, 11, 381300, 2690311, 783837);
    hide *;
    Enough4194301();
    PrimesBelow60();
    FactorChecked(4194301, 5, 41, 102300, 522899, 3889453);
    FactorChecked(4194301, 5, 31, 135300, 541779, 2514848);
    FactorChecked(4194301, 5, 11, 381300, 2690311, 783837);
    PowerChecked(4194301, 5, 11, 381300, 2690311, 783837);
    CheckedPrime(4194301, 5, [41, 31, 11], 300);
  }

  lemma Prime8388593()
    ensures IsPrime(8388593)
  {
    hide IsPrime, At, Power;
    assert At(8388593, 3, 16, 1103756) by {
      assert Hop(8388593, 3, 0, 1, 1, 1, 3);
      assert Hop(8388593, 3, 1, 3, 9, 0, 81);
      assert Hop(8388593, 3, 4, 81, 6561, 0, 1103756);
      ZerothPower(8388593, 3);
      hide *;
      Hops(8388593, 3);
    }
    assert At(8388593, 1103756, 524287, 1) by {
      assert Hop(8388593, 1103756, 0, 1, 1, 1, 1103756);
      assert Hop(8388593, 1103756, 1, 1103756, 1946146, 3, 2310263);
      assert Hop(8388593, 1103756, 7, 2310263, 5724175, 3, 6633622);
      assert Hop(8388593, 1103756, 31, 6633622, 959333, 3, 5332873);
      assert Hop(8388593, 1103756, 127, 5332873, 6352763, 3, 4089958);
      assert Hop(8388593, 1103756, 511, 4089958, 4420313, 3, 2961113);
      assert Hop(8388593, 1103756, 2047, 2961113, 4976926, 3, 1131148);
      assert Hop(8388593, 1103756, 8191, 1131148, 484800, 3, 3451740);
      assert Hop(8388593, 1103756, 32767, 3451740, 5840654, 3, 4693020);
      assert Hop(8388593, 1103756, 131071, 4693020, 1249854, 3, 1);
      ZerothPower(8388593, 1103756);
      hide *;
      Hops(8388593, 1103756);
    }
    assert Splits(8388593, 524287, 16, 1103756, 5826259);
    assert Enough(8388593, [524287], 16);
    hide *;
    Prime524287();
    FactorChecked(8388593, 3, 524287, 16, 1103756, 5826259);
    PowerChecked(8388593, 3, 524287, 16, 1103756, 5826259);
    CheckedPrime(8388593, 3, [524287], 16);
  }

  lemma Prime16777213()
    ensures IsPrime(16777213)
  {
    hide IsPrime, At, Power;
    assert At(16777213, 3, 24564, 6434722) by {
      assert Hop(16777213, 3, 0, 1, 1, 1, 3);
      assert Hop(16777213, 3, 1, 3, 9, 1, 243);
      assert Hop(16777213, 3, 5, 243, 59049, 3, 6236684);
      assert Hop(16777213, 3, 23, 6236684, 3805508, 3, 9149901);
      assert Hop(16777213, 3, 95, 9149901, 13075555, 3, 5883994);
      assert Hop(16777213, 3, 383, 5883994, 12531301, 3, 7416725);
      assert Hop(16777213, 3, 1535, 7416725, 9141052, 1, 1841594);
      assert Hop(16777213, 3, 6141, 1841594, 5184525, 0, 6434722);
      ZerothPower(16777213, 3);
      hide *;
      Hops(16777213, 3);
    }
    assert At(16777213, 3, 188508, 12206557) by {
      assert Hop(16777213, 3, 0, 1, 1, 2, 9);
      assert Hop(16777213, 3, 2, 9, 81, 3, 177147);
      assert Hop(16777213, 3, 11, 177147, 7671299, 2, 3805508);
      assert Hop(16777213, 3, 46, 3805508, 2203020, 0, 1720973);
      assert Hop(16777213, 3, 184, 1720973, 16324200, 0, 1908753);
      assert Hop(16777213, 3, 736, 1908753, 15217142, 1, 4700310);
      assert Hop(16777213, 3, 2945, 4700310, 8929180, 1, 3610121);
      assert Hop(16777213, 3, 11781, 3610121, 15145916, 3, 12312731);
      assert Hop(16777213, 3, 47127, 12312731, 2048916, 0, 12206557);
      ZerothPower(16777213, 3);
      hide *;
      Hops(16777213, 3);
    }
    assert At(16777213, 12206557, 89, 1) by {
      assert Hop(16777213, 12206557, 0, 1, 1, 1, 12206557);
      assert Hop(16777213, 12206557, 1, 12206557, 11306014, 1, 4187275);
      assert Hop(16777213, 12206557, 5, 4187275, 10598993, 2, 6982667);
      assert Hop(16777213, 12206557, 22, 6982667, 4002123, 1, 1);
      ZerothPower(16777213, 12206557);
      hide *;
      Hops(16777213, 12206557);
    }
    assert Splits(16777213, 683, 24564, 6434722, 9642401);
    assert Splits(16777213, 89, 188508, 12206557, 13010881);
    assert Enough(16777213, [683, 89], 276);
    hide *;
    PrimesBelow2000();
    PrimesBelow300();
    FactorChecked(16777213, 3, 683, 24564, 6434722, 9642401);
    FactorChecked(16777213, 3, 89, 188508, 12206557, 13010881);
    PowerChecked(16777213, 3, 89, 188508, 12206557, 13010881);
    CheckedPrime(16777213, 3, [683, 89], 276);
  }

  lemma Prime33554393()
    ensures IsPrime(33554393)
  {
    hide IsPrime, At, Power;
    assert At(33554393, 3, 14152, 16060707) by {
      assert Hop(33554393, 3, 0, 1, 1, 3, 27);
      assert Hop(33554393, 3, 3, 27, 729, 1, 1594323);
      assert Hop(33554393, 3, 13, 1594323, 19895400, 3, 5816029);
      assert Hop(33554393, 3, 55, 5816029, 9745541, 1, 16195652);
      assert Hop(33554393, 3, 221, 16195652, 24444228, 0, 26515768);
      assert Hop(33554393, 3, 884, 26515768, 19485950, 2, 15715079);
      assert Hop(33554393, 3, 3538, 15715079, 20056941, 0, 16060707);
      ZerothPower(33554393, 3);
      hide *;
      Hops(33554393, 3);
    }
    assert At(33554393, 3, 550072, 7230616) by {
      assert Hop(33554393, 3, 0, 1, 1, 2, 9);
      assert Hop(33554393, 3, 2, 9, 81, 0, 6561);
      assert Hop(33554393, 3, 8, 6561, 9492328, 1, 24746472);
      assert Hop(33554393, 3, 33, 24746472, 4452198, 2, 29126522);
      assert Hop(33554393, 3, 134, 29126522, 8436383, 1, 32313770);
      assert Hop(33554393, 3, 537, 32313770, 5421219, 0, 27259514);
      assert Hop(33554393, 3, 2148, 27259514, 11635972, 2, 21762515);
      assert Hop(33554393, 3, 8594, 21762515, 22361067, 3, 17621881);
      assert Hop(33554393, 3, 34379, 17621881, 16457583, 2, 9902035);
      assert Hop(33554393, 3, 137518, 9902035, 32278528, 0, 7230616);
      ZerothPower(33554393, 3);
      hide *;
      Hops(33554393, 3);
    }
    assert At(33554393, 7230616, 61, 1) by {
      assert Hop(33554393, 7230616, 0, 1, 1, 3, 14684443);
      assert Hop(33554393, 7230616, 3, 14684443, 22340018, 3, 17630084);
      assert Hop(33554393, 7230616, 15, 17630084, 16567604, 1, 1);
      ZerothPower(33554393, 7230616);
      hide *;
      Hops(33554393, 7230616);
    }
    assert Splits(33554393, 2371, 14152, 16060707, 7698763);
    assert Splits(33554393, 61, 550072, 7230616, 3065780);
    assert Enough(33554393, [2371, 61], 232);
    hide *;
    PrimesBelow300();
    PrimesBelow4000();
    FactorChecked(33554393, 3, 2371, 14152, 16060707, 7698763);
    FactorChecked(33554393, 3, 61, 550072, 7230616, 3065780);
    PowerChecked(33554393, 3, 61, 550072, 7230616, 3065780);
    CheckedPrime(33554393, 3, [2371, 61], 232);
  }

  lemma Prime67108859()
    ensures IsPrime(67108859)
  {
    hide IsPrime, At, Power;
    assert At(67108859, 3, 958, 13294918) by {
      assert Hop(67108859, 3, 0, 1, 1, 3, 27);
      assert Hop(67108859, 3, 3, 27, 729, 2, 4782969);
      assert Hop(67108859, 3, 14, 4782969, 53510451, 3, 37500059);
      assert Hop(67108859, 3, 59, 37500059, 28708806, 3, 40415243);
      assert Hop(67108859, 3, 239, 40415243, 20976666, 2, 13294918);
      ZerothPower(67108859, 3);
      hide *;
      Hops(67108859, 3);
    }
    assert At(67108859, 13294918, 70051, 1) by {
      assert Hop(67108859, 13294918, 0, 1, 1, 1, 13294918);
      assert Hop(67108859, 13294918, 1, 13294918, 42131856, 0, 14712109);
      assert Hop(67108859, 13294918, 4, 14712109, 15404040, 1, 44205400);
      assert Hop(67108859, 13294918, 17, 44205400, 25305420, 0, 6074652);
      assert Hop(67108859, 13294918, 68, 6074652, 47296197, 1, 45918884);
      assert Hop(67108859, 13294918, 273, 45918884, 66804770, 2, 58421834);
      assert Hop(67108859, 13294918, 1094, 58421834, 21643112, 2, 23798214);
      assert Hop(67108859, 13294918, 4378, 23798214, 41714723, 0, 30827991);
      assert Hop(67108859, 13294918, 17512, 30827991, 36686644, 3, 1);
      ZerothPower(67108859, 13294918);
      hide *;
      Hops(67108859, 13294918);
    }
    assert Splits(67108859, 70051, 958, 13294918, 40640349);
    assert Enough(67108859, [70051], 958);
    hide *;
    Prime70051();
    FactorChecked(67108859, 3, 70051, 958, 13294918, 40640349);
    PowerChecked(67108859, 3, 70051, 958, 13294918, 40640349);
    CheckedPrime(67108859, 3, [70051], 958);
  }

  lemma Prime134217689()
    ensures IsPrime(134217689)
  {
    hide IsPrime, At, Power;
    assert At(134217689, 3, 8888, 36604427) by {
      assert Hop(134217689, 3, 0, 1, 1, 2, 9);
      assert Hop(134217689, 3, 2, 9, 81, 0, 6561);
      assert Hop(134217689, 3, 8, 6561, 43046721, 2, 65489111);
      assert Hop(134217689, 3, 34, 65489111, 84107406, 2, 6359464);
      assert Hop(134217689, 3, 138, 6359464, 39882438, 3, 120997477);
      assert Hop(134217689, 3, 555, 120997477, 25675192, 2, 95140681);
      assert Hop(134217689, 3, 2222, 95140681, 55526427, 0, 36604427);
      ZerothPower(134217689, 3);
      hide *;
      Hops(134217689, 3);
    }
    assert At(134217689, 36604427, 15101, 1) by {
      assert Hop(134217689, 36604427, 0, 1, 1, 3, 13232507);
      assert Hop(134217689, 36604427, 3, 13232507, 52394850, 2, 9077864);
      assert Hop(134217689, 36604427, 14, 9077864, 101239520, 2, 5244496);
      assert Hop(134217689, 36604427, 58, 5244496, 44158002, 3, 115832511);
      assert Hop(134217689, 36604427, 235, 115832511, 2590261, 3, 52348985);
      assert Hop(134217689, 36604427, 943, 52348985, 124487992, 3, 129767458);
      assert Hop(134217689, 36604427, 3775, 129767458, 64852966, 1, 1);
      ZerothPower(134217689, 36604427);
      hide *;
      Hops(134217689, 36604427);
    }
    assert Splits(134217689, 15101, 8888, 36604427, 91694486);
    assert Enough(134217689, [15101], 8888);
    hide *;
    PrimesBelow16000();
    FactorChecked(134217689, 3, 15101, 8888, 36604427, 91694486);
    PowerChecked(134217689, 3, 15101, 8888, 36604427, 91694486);
    CheckedPrime(134217689, 3, [15101], 8888);
  }

  lemma Prime268435399()
    ensures IsPrime(268435399)
  {
    hide IsPrime, At, Power;
    assert At(268435399, 3, 462, 4433711) by {
      assert Hop(268435399, 3, 0, 1, 1, 1, 3);
      assert Hop(268435399, 3, 1, 3, 9, 3, 2187);
      assert Hop(268435399, 3, 7, 2187, 4782969, 0, 190881383);
      assert Hop(268435399, 3, 28, 190881383, 107592486, 3, 92479660);
      assert Hop(268435399, 3, 115, 92479660, 141699105, 2, 4433711);
      ZerothPower(268435399, 3);
      hide *;
      Hops(268435399, 3);
    }
    assert At(268435399, 4433711, 581029, 1) by {
      assert Hop(268435399, 4433711, 0, 1, 1, 2, 527352);
      assert Hop(268435399, 4433711, 2, 527352, 1058540, 0, 57576174);
      assert Hop(268435399, 4433711, 8, 57576174, 232938474, 3, 82356472);
      assert Hop(268435399, 4433711, 35, 82356472, 115247500, 1, 60227293);
      assert Hop(268435399, 4433711, 141, 60227293, 77601497, 3, 147616922);
      assert Hop(268435399, 4433711, 567, 147616922, 240623191, 1, 143337745);
      assert Hop(268435399, 4433711, 2269, 143337745, 51779972, 2, 1865989);
      assert Hop(268435399, 4433711, 9078, 1865989, 39387692, 2, 199758399);
      assert Hop(268435399, 4433711, 36314, 199758399, 109511248, 1, 206412518);
      assert Hop(268435399, 4433711, 145257, 206412518, 122984751, 1, 1);
      ZerothPower(268435399, 4433711);
      hide *;
      Hops(268435399, 4433711);
    }
    assert Splits(268435399, 581029, 462, 4433711, 200517588);
    assert Enough(268435399, [581029], 462);
    hide *;
    Prime581029();
    FactorChecked(268435399, 3, 581029, 462, 4433711, 200517588);
    PowerChecked(268435399, 3, 581029, 462, 4433711, 200517588);
    CheckedPrime(268435399, 3, [581029], 462);
  }

  lemma Prime536870909()
    ensures IsPrime(536870909)
  {
    hide IsPrime, At, Power;
    assert At(536870909, 3, 2044, 17552210) by {
      assert Hop(536870909, 3, 0, 1, 1, 1, 3);
      assert Hop(536870909, 3, 1, 3, 9, 3, 2187);
      assert Hop(536870909, 3, 7, 2187, 4782969, 3, 194253993);
      assert Hop(536870909, 3, 31, 194253993, 396642794, 3, 32574044);
      assert Hop(536870909, 3, 127, 32574044, 436062699, 3, 122970359);
      assert Hop(536870909, 3, 511, 122970359, 232491279, 0, 17552210);
      ZerothPower(536870909, 3);
      hide *;
      Hops(536870909, 3);
    }
    assert At(536870909, 17552210, 262657, 1) by {
      assert Hop(536870909, 17552210, 0, 1, 1, 1, 17552210);
      assert Hop(536870909, 17552210, 1, 17552210, 462850813, 0, 290204251);
      assert Hop(536870909, 17552210, 4, 290204251, 521593655, 0, 62640037);
      assert Hop(536870909, 17552210, 16, 62640037, 46714878, 0, 513200776);
      assert Hop(536870909, 17552210, 64, 513200776, 473701652, 0, 258635014);
      assert Hop(536870909, 17552210, 256, 258635014, 146672577, 2, 150744864);
      assert Hop(536870909, 17552210, 1026, 150744864, 389960930, 0, 138629588);
      assert Hop(536870909, 17552210, 4104, 138629588, 361134891, 0, 95845810);
      assert Hop(536870909, 17552210, 16416, 95845810, 232691649, 0, 414840444);
      assert Hop(536870909, 17552210, 65664, 414840444, 98306903, 1, 1);
      ZerothPower(536870909, 17552210);
      hide *;
      Hops(536870909, 17552210);
    }
    assert Splits(536870909, 262657, 2044, 17552210, 224376242);
    assert Enough(536870909, [262657], 2044);
    hide *;
    Prime262657();
    FactorChecked(536870909, 3, 262657, 2044, 17552210, 224376242);
    PowerChecked(536870909, 3, 262657, 2044, 17552210, 224376242);
    CheckedPrime(536870909, 3, [262657], 2044);
  }

  lemma Prime1073741789()
    ensures IsPrime(1073741789)
  {
    hide IsPrime, At, Power;
    assert At(1073741789, 3, 65548, 792129610) by {
      assert Hop(1073741789, 3, 0, 1, 1, 1, 3);
      assert Hop(1073741789, 3, 1, 3, 9, 0, 81);
      assert Hop(1073741789, 3, 4, 81, 6561, 0, 43046721);
      assert Hop(1073741789, 3, 16, 43046721, 632808990, 0, 63198306);
      assert Hop(1073741789, 3, 64, 63198306, 631439822, 0, 520140689);
      assert Hop(1073741789, 3, 256, 520140689, 793047419, 0, 487528613);
      assert Hop(1073741789, 3, 1024, 487528613, 360754589, 0, 295208362);
      assert Hop(1073741789, 3, 4096, 295208362, 1023130724, 3, 647880816);
      assert Hop(1073741789, 3, 16387, 647880816, 1034629551, 0, 792129610);
      ZerothPower(1073741789, 3);
      hide *;
      Hops(1073741789, 3);
    }
    assert At(1073741789, 3, 458668, 270955769) by {
      assert Hop(1073741789, 3, 0, 1, 1, 1, 3);
      assert Hop(1073741789, 3, 1, 3, 9, 2, 729);
      assert Hop(1073741789, 3, 6, 729, 531441, 3, 957041298);
      assert Hop(1073741789, 3, 27, 957041298, 902886827, 3, 301831750);
      assert Hop(1073741789, 3, 111, 301831750, 462593319, 3, 829736736);
      assert Hop(1073741789, 3, 447, 829736736, 159283318, 3, 294956245);
      assert Hop(1073741789, 3, 1791, 294956245, 1040093013, 2, 445508581);
      assert Hop(1073741789, 3, 7166, 445508581, 960440011, 2, 604293795);
      assert Hop(1073741789, 3, 28666, 604293795, 318397603, 3, 383026374);
      assert Hop(1073741789, 3, 114667, 383026374, 299302843, 0, 270955769);
      ZerothPower(1073741789, 3);
      hide *;
      Hops(1073741789, 3);
    }
    assert At(1073741789, 270955769, 2341, 1) by {
      assert Hop(1073741789, 270955769, 0, 1, 1, 2, 503497279);
      assert Hop(1073741789, 270955769, 2, 503497279, 216667748, 1, 475106614);
      assert Hop(1073741789, 270955769, 9, 475106614, 815808996, 0, 990508553);
      assert Hop(1073741789, 270955769, 36, 990508553, 289821586, 2, 419148102);
      assert Hop(1073741789, 270955769, 146, 419148102, 257696078, 1, 1016717075);
      assert Hop(1073741789, 270955769, 585, 1016717075, 662471397, 1, 1);
      ZerothPower(1073741789, 270955769);
      hide *;
      Hops(1073741789, 270955769);
    }
    assert Splits(1073741789, 16381, 65548, 792129610, 241243594);
    assert Splits(1073741789, 2341, 458668, 270955769, 236438952);
    assert Enough(1073741789, [16381, 2341], 28);
    hide *;
    PrimesBelow33000();
    PrimesBelow4000();
    FactorChecked(1073741789, 3, 16381, 65548, 792129610, 241243594);
    FactorChecked(1073741789, 3, 2341, 458668, 270955769, 236438952);
    PowerChecked(1073741789, 3, 2341, 458668, 270955769, 236438952);
    CheckedPrime(1073741789, 3, [16381, 2341], 28);
  }

  lemma Prime2147483647()
    ensures IsPrime(2147483647)
  {
    hide IsPrime, At, Power;
    assert At(2147483647, 3, 6487866, 272122089) by {
      assert Hop(2147483647, 3, 0, 1, 1, 1, 3);
      assert Hop(2147483647, 3, 1, 3, 9, 2, 729);
      assert Hop(2147483647, 3, 6, 729, 531441, 0, 1109178724);
      assert Hop(2147483647, 3, 24, 1109178724, 1179079857, 2, 1326400731);
      assert Hop(2147483647, 3, 98, 1326400731, 2130964009, 3, 959552724);
      assert Hop(2147483647, 3, 395, 959552724, 1791578743, 3, 1477078723);
      assert Hop(2147483647, 3, 1583, 1477078723, 599163311, 3, 455462116);
      assert Hop(2147483647, 3, 6335, 455462116, 2074486953, 3, 1192004094);
      assert Hop(2147483647, 3, 25343, 1192004094, 1168228948, 0, 1863097726);
      assert Hop(2147483647, 3, 101372, 1863097726, 1225501801, 3, 104182084);
      assert Hop(2147483647, 3, 405491, 104182084, 288635188, 2, 1442406291);
      assert Hop(2147483647, 3, 1621966, 1442406291, 1734575918, 2, 272122089);
      ZerothPower(2147483647, 3);
      hide *;
      Hops(2147483647, 3);
    }
    assert At(2147483647, 3, 14221746, 556613938) by {
      assert Hop(2147483647, 3, 0, 1, 1, 3, 27);
      assert Hop(2147483647, 3, 3, 27, 729, 1, 1594323);
      assert Hop(2147483647, 3, 13, 1594323, 1392673928, 2, 555756953);
      assert Hop(2147483647, 3, 54, 555756953, 1760675082, 1, 529868730);
      assert Hop(2147483647, 3, 217, 529868730, 1484333104, 0, 781387745);
      assert Hop(2147483647, 3, 868, 781387745, 2039900750, 0, 1863041409);
      assert Hop(2147483647, 3, 3472, 1863041409, 1907369905, 0, 1082220771);
      assert Hop(2147483647, 3, 13888, 1082220771, 1777528049, 1, 367705588);
      assert Hop(2147483647, 3, 55553, 367705588, 1522722147, 2, 1937603722);
      assert Hop(2147483647, 3, 222214, 1937603722, 1066266930, 3, 1825111064);
      assert Hop(2147483647, 3, 888859, 1825111064, 2050205502, 0, 480280235);
      assert Hop(2147483647, 3, 3555436, 480280235, 47433441, 2, 556613938);
      ZerothPower(2147483647, 3);
      hide *;
      Hops(2147483647, 3);
    }
    assert At(2147483647, 556613938, 151, 1) by {
      assert Hop(2147483647, 556613938, 0, 1, 1, 2, 1757926241);
      assert Hop(2147483647, 556613938, 2, 1757926241, 1964833331, 1, 974880537);
      assert Hop(2147483647, 556613938, 9, 974880537, 2093007239, 1, 746495793);
      assert Hop(2147483647, 556613938, 37, 746495793, 2125558292, 3, 1);
      ZerothPower(2147483647, 556613938);
      hide *;
      Hops(2147483647, 556613938);
    }
    assert Splits(2147483647, 331, 6487866, 272122089, 411595504);
    assert Splits(2147483647, 151, 14221746, 556613938, 2069584139);
    assert Enough(2147483647, [331, 151], 42966);
    hide *;
    PrimesBelow2000();
    PrimesBelow300();
    FactorChecked(2147483647, 3, 331, 6487866, 272122089, 411595504);
    FactorChecked(2147483647, 3, 151, 14221746, 556613938, 2069584139);
    PowerChecked(2147483647, 3, 151, 14221746, 556613938, 2069584139);
    CheckedPrime(2147483647, 3, [331, 151], 42966);
  }

  /** The last row is not needed: the table does not use it for probing. */
  lemma RowsArePrime(i: nat)
    requires i + 1 < |PRIME_TAB|
    ensures IsPrime(PRIME_TAB[i].prime)
  {
    PrimesBelow16000();
    PrimesBelow2000();
    PrimesBelow300();
    PrimesBelow33000();
    PrimesBelow4000();
    PrimesBelow60();
    PrimesBelow8000();
    Prime65521();
    Prime131071();
    Prime262139();
    Prime524287();
    Prime1048573();
    Prime2097143();
    Prime4194301();
    Prime8388593();
    Prime16777213();
    Prime33554393();
    Prime67108859();
    Prime134217689();
    Prime268435399();
    Prime536870909();
    Prime1073741789();
    Prime2147483647();
    hide IsPrime;
  }
}
