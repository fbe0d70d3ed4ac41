/** Where the buffer size levels come from: from 10 to 150000 bytes in 61 equal ratios, each level rounded up
    to whole bytes (Table 6.1.3.1-1 of TS 36.321).  The ratio is the 61st root of 15000. */
module BsrLevels {
  import opened Bsr

  ghost function Pow(r: real, n: nat): real { if n == 0 then 1.0 else r * Pow(r, n - 1) }

  /** Level `k` is the exact value rounded up. */
  ghost predicate Rounded(r: real, k: nat)
    requires 2 <= k < 64
  {
    Level(k) as real - 1.0 < 10.0 * Pow(r, k - 2) <= Level(k) as real
  }

  // ---------- the ratio ----------

  lemma {:induction false} PowAdds(r: real, n: nat, m: nat)
    ensures Pow(r, n + m) == Pow(r, n) * Pow(r, m)
  {
    if n > 0 {
      PowAdds(r, n - 1, m);
      Reassociated(r, Pow(r, n - 1), Pow(r, m));
    }
  }

  lemma Reassociated(a: real, b: real, c: real)
    ensures a * (b * c) == (a * b) * c
  {
  }

  lemma ProductsOrdered(a: real, b: real, c: real, d: real)
    requires 0.0 <= a <= c && 0.0 <= b <= d
    ensures 0.0 <= a * b <= c * d
  {
    assert a * b <= a * d;
    assert a * d <= c * d;
  }

  lemma AtMost(r: real, n: nat, m: nat, a: real, b: real, c: real)
    requires 0.0 <= Pow(r, n) <= a && 0.0 <= Pow(r, m) <= b && a * b <= c
    ensures 0.0 <= Pow(r, n + m) <= c
  {
    PowAdds(r, n, m);
    ProductsOrdered(Pow(r, n), Pow(r, m), a, b);
  }

  lemma AtLeast(r: real, n: nat, m: nat, a: real, b: real, c: real)
    requires 0.0 <= a <= Pow(r, n) && 0.0 <= b <= Pow(r, m) && c <= a * b
    ensures c <= Pow(r, n + m)
  {
    PowAdds(r, n, m);
    ProductsOrdered(a, b, Pow(r, n), Pow(r, m));
  }

  lemma SmallRatio(r: real)
    requires 0.0 <= r <= 1.1707401497
    ensures Pow(r, 61) < 15000.0
  {
    assert Pow(r, 1) == r;
    hide Pow;
    AtMost(r, 1, 1, 1.1707401497, 1.1707401497, 1.37063249811958);
    AtMost(r, 2, 1, 1.37063249811958, 1.1707401497, 1.60465449603221);
    AtMost(r, 3, 3, 1.60465449603221, 1.60465449603221, 2.57491605163639);
    AtMost(r, 6, 1, 2.57491605163639, 1.1707401497, 3.01455760375773);
    AtMost(r, 7, 7, 3.01455760375773, 3.01455760375773, 9.08755754637355);
    AtMost(r, 14, 1, 9.08755754637355, 1.1707401497, 10.63916848224874);
    AtMost(r, 15, 15, 10.63916848224874, 10.63916848224874, 113.19190599367496);
    AtMost(r, 30, 30, 113.19190599367496, 113.19190599367496, 12812.40758248094934);
    AtMost(r, 60, 1, 12812.40758248094934, 1.1707401497, 14999.99997113116173);
  }

  lemma LargeRatio(r: real)
    requires r >= 1.1707401498
    ensures Pow(r, 61) > 15000.0
  {
    assert Pow(r, 1) == r;
    hide Pow;
    AtLeast(r, 1, 1, 1.1707401498, 1.1707401498, 1.37063249835372);
    AtLeast(r, 2, 1, 1.37063249835372, 1.1707401498, 1.60465449644338);
    AtLeast(r, 3, 3, 1.60465449644338, 1.60465449644338, 2.57491605295595);
    AtLeast(r, 6, 1, 2.57491605295595, 1.1707401498, 3.01455760556007);
    AtLeast(r, 7, 7, 3.01455760556007, 3.01455760556007, 9.08755755724006);
    AtLeast(r, 14, 1, 9.08755755724006, 1.1707401498, 10.63916849587934);
    AtLeast(r, 15, 15, 10.63916849587934, 10.63916849587934, 113.19190628371145);
    AtLeast(r, 30, 30, 113.19190628371145, 113.19190628371145, 12812.40764814051563);
    AtLeast(r, 60, 1, 12812.40764814051563, 1.1707401498, 15000.00004928269296);
  }

  lemma RatioIs(r: real)
    requires r > 0.0 && Pow(r, 61) == 15000.0
    ensures 1.1707401497 < r < 1.1707401498
  {
    hide Pow;
    if r <= 1.1707401497 {
      SmallRatio(r);
    } else if r >= 1.1707401498 {
      LargeRatio(r);
    }
  }

  // ---------- the levels ----------

  ghost predicate Between(r: real, n: nat, low: real, high: real) { 0.0 <= low <= Pow(r, n) <= high }

  lemma Next(r: real, n: nat, low: real, high: real, low': real, high': real)
    requires 1.1707401497 < r < 1.1707401498 && Between(r, n, low, high)
    requires 0.0 <= low' <= low * 1.1707401497 && high * 1.1707401498 <= high'
    ensures Between(r, n + 1, low', high')
  {
    ProductsOrdered(1.1707401497, low, r, Pow(r, n));
    ProductsOrdered(r, Pow(r, n), 1.1707401498, high);
  }

  lemma Levels2(r: real)
    requires 1.1707401497 < r < 1.1707401498 && Between(r, 0, 1.0, 1.0)
    ensures Rounded(r, 2) && Rounded(r, 3) && Rounded(r, 4) && Rounded(r, 5) && Rounded(r, 6) && Rounded(r, 7)
    ensures Between(r, 6, 2.57491599, 2.57491607)
  {
    hide Pow;
    Next(r, 0, 1.0, 1.0, 1.17074014, 1.17074015);
    Next(r, 1, 1.17074014, 1.17074015, 1.37063248, 1.37063250);
    Next(r, 2, 1.37063248, 1.37063250, 1.60465447, 1.60465450);
    Next(r, 3, 1.60465447, 1.60465450, 1.87863341, 1.87863345);
    Next(r, 4, 1.87863341, 1.87863345, 2.19939155, 2.19939161);
    Next(r, 5, 2.19939155, 2.19939161, 2.57491599, 2.57491607);
  }

  lemma Levels8(r: real)
    requires 1.1707401497 < r < 1.1707401498 && Between(r, 6, 2.57491599, 2.57491607)
    ensures Rounded(r, 8) && Rounded(r, 9) && Rounded(r, 10) && Rounded(r, 11) && Rounded(r, 12) && Rounded(r, 13)
    ensures Between(r, 12, 6.63019249, 6.63019278)
  {
    hide Pow;
    Next(r, 6, 2.57491599, 2.57491607, 3.01455753, 3.01455763);
    Next(r, 7, 3.01455753, 3.01455763, 3.52926353, 3.52926366);
    Next(r, 8, 3.52926353, 3.52926366, 4.13185051, 4.13185067);
    Next(r, 9, 4.13185051, 4.13185067, 4.83732328, 4.83732348);
    Next(r, 10, 4.83732328, 4.83732348, 5.66324858, 5.66324882);
    Next(r, 11, 5.66324858, 5.66324882, 6.63019249, 6.63019278);
  }

  lemma Levels14(r: real)
    requires 1.1707401497 < r < 1.1707401498 && Between(r, 12, 6.63019249, 6.63019278)
    ensures Rounded(r, 14) && Rounded(r, 15) && Rounded(r, 16) && Rounded(r, 17) && Rounded(r, 18) && Rounded(r, 19)
    ensures Between(r, 18, 17.07218901, 17.07218987)
  {
    hide Pow;
    Next(r, 12, 6.63019249, 6.63019278, 7.76223254, 7.76223289);
    Next(r, 13, 7.76223254, 7.76223289, 9.08755728, 9.08755770);
    Next(r, 14, 9.08755728, 9.08755770, 10.63916817, 10.63916867);
    Next(r, 15, 10.63916817, 10.63916867, 12.45570133, 12.45570193);
    Next(r, 16, 12.45570133, 12.45570193, 14.58238963, 14.58239035);
    Next(r, 17, 14.58238963, 14.58239035, 17.07218901, 17.07218987);
  }

  lemma Levels20(r: real)
    requires 1.1707401497 < r < 1.1707401498 && Between(r, 18, 17.07218901, 17.07218987)
    ensures Rounded(r, 20) && Rounded(r, 21) && Rounded(r, 22) && Rounded(r, 23) && Rounded(r, 24) && Rounded(r, 25)
    ensures Between(r, 24, 43.95945347, 43.95945580)
  {
    hide Pow;
    Next(r, 18, 17.07218901, 17.07218987, 19.98709711, 19.98709813);
    Next(r, 19, 19.98709711, 19.98709813, 23.39969706, 23.39969826);
    Next(r, 20, 23.39969706, 23.39969826, 27.39496483, 27.39496625);
    Next(r, 21, 27.39496483, 27.39496625, 32.07238522, 32.07238690);
    Next(r, 22, 32.07238522, 32.07238690, 37.54842907, 37.54843105);
    Next(r, 23, 37.54842907, 37.54843105, 43.95945347, 43.95945580);
  }

  lemma Levels26(r: real)
    requires 1.1707401497 < r < 1.1707401498 && Between(r, 24, 43.95945347, 43.95945580)
    ensures Rounded(r, 26) && Rounded(r, 27) && Rounded(r, 28) && Rounded(r, 29) && Rounded(r, 30) && Rounded(r, 31)
    ensures Between(r, 30, 113.19190231, 113.19190847)
  {
    hide Pow;
    Next(r, 24, 43.95945347, 43.95945580, 51.46509713, 51.46509987);
    Next(r, 25, 51.46509713, 51.46509987, 60.25225551, 60.25225874);
    Next(r, 26, 60.25225551, 60.25225874, 70.53973463, 70.53973843);
    Next(r, 27, 70.53973463, 70.53973843, 82.58369948, 82.58370394);
    Next(r, 28, 82.58369948, 82.58370394, 96.68405269, 96.68405793);
    Next(r, 29, 96.68405269, 96.68405793, 113.19190231, 113.19190847);
  }

  lemma Levels32(r: real)
    requires 1.1707401497 < r < 1.1707401498 && Between(r, 30, 113.19190231, 113.19190847)
    ensures Rounded(r, 32) && Rounded(r, 33) && Rounded(r, 34) && Rounded(r, 35) && Rounded(r, 36) && Rounded(r, 37)
    ensures Between(r, 36, 291.45964614, 291.45966222)
  {
    hide Pow;
    Next(r, 30, 113.19190231, 113.19190847, 132.51830465, 132.51831188);
    Next(r, 31, 132.51830465, 132.51831188, 155.14449982, 155.14450831);
    Next(r, 32, 155.14449982, 155.14450831, 181.63389494, 181.63390490);
    Next(r, 33, 181.63389494, 181.63390490, 212.64609335, 212.64610504);
    Next(r, 34, 212.64609335, 212.64610504, 248.95331916, 248.95333287);
    Next(r, 35, 248.95331916, 248.95333287, 291.45964614, 291.45966222);
  }

  lemma Levels38(r: real)
    requires 1.1707401497 < r < 1.1707401498 && Between(r, 36, 291.45964614, 291.45966222)
    ensures Rounded(r, 38) && Rounded(r, 39) && Rounded(r, 40) && !Rounded(r, 41) && Rounded(r, 42) && Rounded(r, 43)
    ensures Between(r, 42, 750.48412120, 750.48416309)
  {
    hide Pow;
    Next(r, 36, 291.45964614, 291.45966222, 341.22350975, 341.22352861);
    Next(r, 37, 341.22350975, 341.22352861, 399.48406288, 399.48408501);
    Next(r, 38, 399.48406288, 399.48408501, 467.69203157, 467.69205753);
    Next(r, 39, 467.69203157, 467.69205753, 547.54583905, 547.54586950);
    Next(r, 40, 547.54583905, 547.54586950, 641.03389757, 641.03393329);
    Next(r, 41, 641.03389757, 641.03393329, 750.48412120, 750.48416309);
  }

  lemma Levels44(r: real)
    requires 1.1707401497 < r < 1.1707401498 && Between(r, 42, 750.48412120, 750.48416309)
    ensures Rounded(r, 44) && Rounded(r, 45) && Rounded(r, 46) && Rounded(r, 47) && Rounded(r, 48) && Rounded(r, 49)
    ensures Between(r, 48, 1932.43361013, 1932.43371908)
  {
    hide Pow;
    Next(r, 42, 750.48412120, 750.48416309, 878.62189240, 878.62194152);
    Next(r, 43, 878.62189240, 878.62194152, 1028.63792583, 1028.63798344);
    Next(r, 44, 1028.63792583, 1028.63798344, 1204.26771927, 1204.26778683);
    Next(r, 45, 1204.26771927, 1204.26778683, 1409.88456993, 1409.88464916);
    Next(r, 46, 1409.88456993, 1409.88464916, 1650.60847245, 1650.60856536);
    Next(r, 47, 1650.60847245, 1650.60856536, 1932.43361013, 1932.43371908);
  }

  lemma Levels50(r: real)
    requires 1.1707401497 < r < 1.1707401498 && Between(r, 48, 1932.43361013, 1932.43371908)
    ensures Rounded(r, 50) && Rounded(r, 51) && Rounded(r, 52) && Rounded(r, 53) && Rounded(r, 54) && Rounded(r, 55)
    ensures Between(r, 54, 4975.85432139, 4975.85460458)
  {
    hide Pow;
    Next(r, 48, 1932.43361013, 1932.43371908, 2262.37761400, 2262.37774176);
    Next(r, 49, 2262.37761400, 2262.37774176, 2648.65630649, 2648.65645630);
    Next(r, 50, 2648.65630649, 2648.65645630, 3100.88828076, 3100.88845642);
    Next(r, 51, 3100.88828076, 3100.88845642, 3630.33441001, 3630.33461599);
    Next(r, 52, 3630.33441001, 3630.33461599, 4250.17825063, 4250.17849215);
    Next(r, 53, 4250.17825063, 4250.17849215, 4975.85432139, 4975.85460458);
  }

  lemma Levels56(r: real)
    requires 1.1707401497 < r < 1.1707401498 && Between(r, 54, 4975.85432139, 4975.85460458)
    ensures Rounded(r, 56) && Rounded(r, 57) && Rounded(r, 58) && Rounded(r, 59) && Rounded(r, 60) && Rounded(r, 61)
    ensures Between(r, 60, 12812.40716270, 12812.40789854)
  {
    hide Pow;
    Next(r, 54, 4975.85432139, 4975.85460458, 5825.43243310, 5825.43276515);
    Next(r, 55, 5825.43243310, 5825.43276515, 6820.06763879, 6820.06802813);
    Next(r, 56, 6820.06763879, 6820.06802813, 7984.52700840, 7984.52746490);
    Next(r, 57, 7984.52700840, 7984.52746490, 9347.80634509, 9347.80688034);
    Next(r, 58, 9347.80634509, 9347.80688034, 10943.85219981, 10943.85282740);
    Next(r, 59, 10943.85219981, 10943.85282740, 12812.40716270, 12812.40789854);
  }

  /** Every level from 10 to 150000 bytes is its exact value rounded up, but for one: level 41 is 4667 and
      should be 4677. */
  lemma LevelsAreGeometric(r: real, k: nat)
    requires r > 0.0 && Pow(r, 61) == 15000.0 && 2 <= k < 64
    ensures Level(0) == 0 && Level(1) == 1 && (Rounded(r, k) <==> k != 41)
    ensures k == 41 ==> Level(k) == 4667 && 4676.0 < 10.0 * Pow(r, k - 2) <= 4677.0
  {
    RatioIs(r);
    assert Between(r, 0, 1.0, 1.0) && Rounded(r, 63);
    Levels2(r);
    Levels8(r);
    Levels14(r);
    Levels20(r);
    Levels26(r);
    Levels32(r);
    Levels38(r);
    Levels44(r);
    Levels50(r);
    Levels56(r);
    Last(r);
  }

  lemma Last(r: real)
    requires Between(r, 60, 12812.40716270, 12812.40789854)
    ensures Rounded(r, 62)
  {
    hide Pow;
  }
}
