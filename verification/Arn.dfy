/**
 * `create_arn`: an Amazon Resource Name assembled from its parts. The account id, which the
 * source looks up through IAM, is a parameter. `ParseArn` cuts a name back into its parts
 * at its first five colons, so the resource keeps any colons of its own.
 */
module Arn {
  import opened Wrappers
  import opened Strings

  datatype ArnParts = ArnParts(service: string, region: string, accountId: string, resource: string)

  const Colon: char := ':'

  /** `create_arn`: the `arn:aws:` prefix followed by service, region, account id and resource, joined by colons. */
  function CreateArn(service: string, region: string, accountId: string, resource: string): string
  {
    "arn:aws:" + service + ":" + region + ":" + accountId + ":" + resource
  }

  /** The parts of an `arn:aws:` name; the resource is everything after the fifth colon. */
  function ParseArn(arn: string): Option<ArnParts>
  {
    var parts := Split(arn, Colon, 5);
    if |parts| == 6 && parts[0] == "arn" && parts[1] == "aws" then
      Some(ArnParts(parts[2], parts[3], parts[4], parts[5]))
    else
      None
  }

  /**
   * When service, region and account id hold no colon, splitting the name at its first five
   * colons gives back all four parts; the resource may hold colons of its own.
   */
  lemma ParseCreateArn(service: string, region: string, accountId: string, resource: string)
    requires Colon !in service && Colon !in region && Colon !in accountId
    ensures Split(CreateArn(service, region, accountId, resource), Colon, 5)
      == ["arn", "aws", service, region, accountId, resource]
    ensures ParseArn(CreateArn(service, region, accountId, resource)) == Some(ArnParts(service, region, accountId, resource))
  {
    var c := [Colon];
    var tail4 := accountId + c + resource;
    var tail3 := region + c + tail4;
    var tail2 := service + c + tail3;
    var tail1 := "aws" + c + tail2;
    CreateArnNested(service, region, accountId, resource);
    SplitAtSeparator(accountId, resource, Colon, 1);
    assert Split(tail4, Colon, 1) == [accountId, resource];
    SplitAtSeparator(region, tail4, Colon, 2);
    assert Split(tail3, Colon, 2) == [region, accountId, resource];
    SplitAtSeparator(service, tail3, Colon, 3);
    assert Split(tail2, Colon, 3) == [service, region, accountId, resource];
    SplitAtSeparator("aws", tail2, Colon, 4);
    assert Split(tail1, Colon, 4) == ["aws", service, region, accountId, resource];
    SplitAtSeparator("arn", tail1, Colon, 5);
  }

  /** A name that parses is the name `create_arn` builds from its parts. */
  lemma CreateParseArn(arn: string)
    requires ParseArn(arn).Some?
    ensures var p := ParseArn(arn).value; CreateArn(p.service, p.region, p.accountId, p.resource) == arn
  {
    var parts := Split(arn, Colon, 5);
    JoinSplit(arn, Colon, 5);
    JoinSix(parts);
    CreateArnNested(parts[2], parts[3], parts[4], parts[5]);
  }

  /** `create_arn`'s concatenation, grouped from the right. */
  lemma CreateArnNested(service: string, region: string, accountId: string, resource: string)
    ensures CreateArn(service, region, accountId, resource)
      == "arn" + [Colon] + ("aws" + [Colon] + (service + [Colon] + (region + [Colon] + (accountId + [Colon] + resource))))
  {
  }

  lemma JoinSix(parts: seq<string>)
    requires |parts| == 6
    ensures Join(parts, Colon)
      == parts[0] + [Colon] + (parts[1] + [Colon] + (parts[2] + [Colon] + (parts[3] + [Colon] + (parts[4] + [Colon] + parts[5]))))
  {
    JoinCons(parts[4..]);
    assert parts[4..][1..] == parts[5..];
    JoinCons(parts[3..]);
    assert parts[3..][1..] == parts[4..];
    JoinCons(parts[2..]);
    assert parts[2..][1..] == parts[3..];
    JoinCons(parts[1..]);
    assert parts[1..][1..] == parts[2..];
    JoinCons(parts);
  }

  lemma JoinCons(parts: seq<string>)
    requires |parts| >= 2
    ensures Join(parts, Colon) == parts[0] + [Colon] + Join(parts[1..], Colon)
  {
  }
}
